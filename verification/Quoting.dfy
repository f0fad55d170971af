/** Shell quoting, checked against the repository's own word splitters. */
module Quoting {
  import opened Results
  import opened Characters
  import opened NameOrder

  // ---------------------------------------------------------------- quoting

  /** Every single quote becomes: close, escaped quote, open. */
  function Escaped(s: string): string {
    if s == [] then ""
    else (if s[0] == '\'' then "'\\''" else [s[0]]) + Escaped(s[1..])
  }

  function QuoteSh(s: string): string {
    "'" + Escaped(s) + "'"
  }

  function ShellQuote(s: string): string {
    if s == [] then "''" else "'" + Escaped(s) + "'"
  }

  /** Words separated by single spaces. */
  function Join(words: seq<string>): string {
    if words == [] then ""
    else if |words| == 1 then words[0]
    else words[0] + " " + Join(words[1..])
  }

  function QuoteEach(words: seq<string>): (qs: seq<string>)
    ensures |qs| == |words| && forall i :: 0 <= i < |qs| ==> qs[i] == QuoteSh(words[i])
  {
    seq(|words|, i requires 0 <= i < |words| => QuoteSh(words[i]))
  }

  // ---------------------------------------------------------------- splitting

  datatype SplitError = UnterminatedQuote

  /** The words finished so far, the word being read, whether there is one, and the open quote. */
  datatype Lexer = Lexer(words: seq<string>, current: string, inWord: bool, quote: Option<char>)

  const START := Lexer([], "", false, None)

  /** `lone`: whether a backslash at the very end opens a word. */
  function Scan(l: Lexer, s: string, lone: bool): Lexer
    decreases |s|
  {
    if s == [] then l
    else if l.quote.Some? then
      if s[0] == l.quote.value then Scan(l.(quote := None), s[1..], lone)
      else if s[0] == '\\' && l.quote.value == '"' then
        if |s| > 1 then Scan(l.(current := l.current + [s[1]]), s[2..], lone) else l
      else Scan(l.(current := l.current + [s[0]]), s[1..], lone)
    else if s[0] == '\'' || s[0] == '"' then Scan(l.(quote := Some(s[0]), inWord := true), s[1..], lone)
    else if s[0] == '\\' then
      if |s| > 1 then Scan(l.(current := l.current + [s[1]], inWord := true), s[2..], lone)
      else l.(inWord := l.inWord || lone)
    else if IsSpace(s[0]) then
      if l.inWord then Scan(Lexer(l.words + [l.current], "", false, None), s[1..], lone)
      else Scan(l, s[1..], lone)
    else Scan(l.(current := l.current + [s[0]], inWord := true), s[1..], lone)
  }

  function Words(l: Lexer): Result<seq<string>, SplitError> {
    if l.quote.Some? then Err(UnterminatedQuote)
    else Ok(if l.inWord then l.words + [l.current] else l.words)
  }

  /** Splitting of a local command (`lone` false) and of QEMU options (`lone` true). */
  function Split(s: string, lone: bool): Result<seq<string>, SplitError> {
    Words(Scan(START, s, lone))
  }

  method SplitArgv(cmd: string) returns (r: Result<seq<string>, SplitError>)
    ensures r == Split(cmd, false)
  {
    var argv: seq<string>, current, inArg, quote: Option<char> := [], "", false, None;
    var i := 0;
    while i < |cmd|
      invariant i <= |cmd|
      invariant Scan(Lexer(argv, current, inArg, quote), cmd[i..], false) == Scan(START, cmd, false)
    {
      var c := cmd[i];
      assert cmd[i..][1..] == cmd[i + 1..];
      assert |cmd[i..]| > 1 ==> cmd[i..][2..] == cmd[i + 2..];
      i := i + 1;
      if quote.Some? {
        if c == quote.value {
          quote := None;
        } else if quote.value == '"' && c == '\\' {
          if i < |cmd| {
            current := current + [cmd[i]];
            i := i + 1;
          }
        } else {
          current := current + [c];
        }
      } else if c == '\'' || c == '"' {
        quote := Some(c);
        inArg := true;
      } else if c == '\\' {
        if i < |cmd| {
          current := current + [cmd[i]];
          i := i + 1;
          inArg := true;
        }
      } else if IsSpace(c) {
        if inArg {
          argv, current, inArg := argv + [current], "", false;
        }
      } else {
        current := current + [c];
        inArg := true;
      }
    }
    if quote.Some? {
      return Err(UnterminatedQuote);
    }
    if inArg {
      argv := argv + [current];
    }
    return Ok(argv);
  }

  method SplitOptions(options: string) returns (r: Result<seq<string>, SplitError>)
    ensures r == Split(options, true)
  {
    var words: seq<string>, current, inWord, quote: Option<char> := [], "", false, None;
    var i := 0;
    while i < |options|
      invariant i <= |options|
      invariant Scan(Lexer(words, current, inWord, quote), options[i..], true) == Scan(START, options, true)
    {
      var ch := options[i];
      assert options[i..][1..] == options[i + 1..];
      assert |options[i..]| > 1 ==> options[i..][2..] == options[i + 2..];
      i := i + 1;
      if quote.Some? {
        if ch == quote.value {
          quote := None;
        } else if ch == '\\' && quote.value == '"' {
          if i < |options| {
            current := current + [options[i]];
            i := i + 1;
          }
        } else {
          current := current + [ch];
        }
      } else {
        match ch {
          case '\'' =>
            quote := Some(ch);
            inWord := true;
          case '"' =>
            quote := Some(ch);
            inWord := true;
          case '\\' =>
            if i < |options| {
              current := current + [options[i]];
              i := i + 1;
            }
            inWord := true;
          case _ =>
            if IsSpace(ch) {
              if inWord {
                words, current, inWord := words + [current], "", false;
              }
            } else {
              current := current + [ch];
              inWord := true;
            }
        }
      }
    }
    if quote.Some? {
      return Err(UnterminatedQuote);
    }
    if inWord {
      words := words + [current];
    }
    return Ok(words);
  }

  // ---------------------------------------------------------------- reading quoted words

  /** Inside single quotes, an escaped quote is read back as one quote. */
  lemma ScanEscapedQuote(l: Lexer, tail: string, lone: bool)
    requires l.quote == Some('\'') && l.inWord
    ensures Scan(l, "'\\''" + tail, lone) == Scan(l.(current := l.current + ['\'']), tail, lone)
  {
    hide IsSpace;
    var next := l.(current := l.current + ['\''], quote := None);
    assert ("'\\''" + tail)[1..] == "\\''" + tail;
    assert ("\\''" + tail)[2..] == "'" + tail;
    assert ("'" + tail)[1..] == tail;
    assert Scan(l.(quote := None), "\\''" + tail, lone) == Scan(next, "'" + tail, lone);
  }

  lemma ScanQuotedChar(l: Lexer, c: char, tail: string, lone: bool)
    requires l.quote == Some('\'')
    ensures Scan(l, [c] + tail, lone)
         == Scan(if c == '\'' then l.(quote := None) else l.(current := l.current + [c]), tail, lone)
  {
    hide IsSpace;
    assert ([c] + tail)[1..] == tail;
  }

  lemma Regroup(a: string, b: string, c: string)
    ensures a + b + c == a + (b + c)
  {}

  lemma EscapedFirst(s: string)
    requires s != []
    ensures Escaped(s) == (if s[0] == '\'' then "'\\''" else [s[0]]) + Escaped(s[1..])
  {}

  /** Inside single quotes, an escaped text and the closing quote are read back as the text. */
  lemma {:induction false} ScanEscaped(l: Lexer, s: string, rest: string, lone: bool)
    requires l.quote == Some('\'') && l.inWord
    ensures Scan(l, Escaped(s) + ("'" + rest), lone) == Scan(l.(current := l.current + s, quote := None), rest, lone)
    decreases |s|
  {
    hide Scan;
    var after := "'" + rest;
    if s == [] {
      assert Escaped(s) + after == after;
      ScanQuotedChar(l, '\'', rest, lone);
      assert l.current + s == l.current;
    } else {
      EscapedFirst(s);
      hide Escaped;
      var head, more := [s[0]], s[1..];
      assert s == head + more;
      Regroup(if s[0] == '\'' then "'\\''" else head, Escaped(more), after);
      Regroup(l.current, head, more);
      ScanEscaped(l.(current := l.current + head), more, rest, lone);
      if s[0] == '\'' {
        ScanEscapedQuote(l, Escaped(more) + after, lone);
      } else {
        ScanQuotedChar(l, s[0], Escaped(more) + after, lone);
      }
    }
  }

  /** A quoted text adds exactly that text to the word being read. */
  lemma ScanQuoted(l: Lexer, s: string, rest: string, lone: bool)
    requires l.quote.None?
    ensures Scan(l, QuoteSh(s) + rest, lone) == Scan(l.(current := l.current + s, inWord := true), rest, lone)
  {
    var text := QuoteSh(s) + rest;
    assert text[0] == '\'' && text[1..] == Escaped(s) + ("'" + rest);
    ScanEscaped(l.(quote := Some('\''), inWord := true), s, rest, lone);
  }

  lemma ScanEnd(l: Lexer, lone: bool)
    ensures Scan(l, "", lone) == l
  {}

  /** A space ends the word being read. */
  lemma ScanSpace(l: Lexer, rest: string, lone: bool)
    requires l.quote.None? && l.inWord
    ensures Scan(l, " " + rest, lone) == Scan(Lexer(l.words + [l.current], "", false, None), rest, lone)
  {
    assert (" " + rest)[1..] == rest;
  }

  lemma {:induction false} ScanJoined(done: seq<string>, words: seq<string>, lone: bool)
    requires words != []
    ensures Words(Scan(Lexer(done, "", false, None), Join(QuoteEach(words)), lone)) == Ok(done + words)
    decreases |words|
  {
    hide Scan, QuoteSh;
    var qs := QuoteEach(words);
    var l := Lexer(done, "", false, None);
    assert "" + words[0] == words[0];
    if |words| == 1 {
      assert qs[0] + "" == qs[0];
      ScanQuoted(l, words[0], "", lone);
      ScanEnd(l.(current := words[0], inWord := true), lone);
      assert done + [words[0]] == done + words;
    } else {
      var rest := Join(qs[1..]);
      assert qs[1..] == QuoteEach(words[1..]);
      assert Join(qs) == qs[0] + (" " + rest);
      ScanQuoted(l, words[0], " " + rest, lone);
      ScanSpace(l.(current := words[0], inWord := true), rest, lone);
      ScanJoined(done + [words[0]], words[1..], lone);
      assert done + [words[0]] + words[1..] == done + words;
    }
  }

  /**
    Whatever the words are, quoting them and splitting the result gives them back, in both splitters; the
    two quoting functions agree on every word.
   */
  lemma QuotedWordsSplitBack(words: seq<string>, lone: bool)
    ensures Split(Join(QuoteEach(words)), lone) == Ok(words)
    ensures forall s :: ShellQuote(s) == QuoteSh(s)
  {
    if words != [] {
      ScanJoined([], words, lone);
      assert [] + words == words;
    }
  }

  /** The splitters differ only in a backslash that ends the text. */
  lemma {:induction false} SplittersDifferOnlyAtTheEnd(l: Lexer, s: string)
    requires s == [] || s[|s| - 1] != '\\'
    ensures Scan(l, s, false) == Scan(l, s, true)
    decreases |s|
  {
    if s != [] {
      var next := Scan(l, s[..1], false);
      if |s| > 1 {
        forall l' ensures Scan(l', s[1..], false) == Scan(l', s[1..], true) {
          SplittersDifferOnlyAtTheEnd(l', s[1..]);
        }
        forall l' ensures Scan(l', s[2..], false) == Scan(l', s[2..], true) {
          SplittersDifferOnlyAtTheEnd(l', s[2..]);
        }
      } else {
        assert s[1..] == [];
      }
    }
  }

  // ---------------------------------------------------------------- the remote command

  datatype CommandError = InvalidName(name: string)

  predicate NameChar(c: char, first: bool) {
    c == '_' || 'a' <= c <= 'z' || 'A' <= c <= 'Z' || (!first && '0' <= c <= '9')
  }

  predicate ValidName(name: string) {
    name != [] && forall i :: 0 <= i < |name| ==> NameChar(name[i], i == 0)
  }

  /** The code of an ASCII letter or the underscore, or of an ASCII digit. */
  predicate LetterCode(code: int) {
    0x41 <= code <= 0x5A || 0x61 <= code <= 0x7A || code == 0x5F
  }

  predicate DigitCode(code: int) {
    0x30 <= code <= 0x39
  }

  /** A name may be exported if and only if it starts with a letter or underscore and goes on with those or digits. */
  lemma ValidNameIff(name: string)
    ensures ValidName(name) <==>
      (|name| > 0 && LetterCode(name[0] as int)
       && forall i :: 0 < i < |name| ==> LetterCode(name[i] as int) || DigitCode(name[i] as int))
  {}

  function Exports(env: seq<(string, string)>): string {
    if env == [] then ""
    else Exports(env[..|env| - 1])
         + ("export " + env[|env| - 1].0 + "=" + QuoteSh(env[|env| - 1].1) + " && ")
  }

  /** The first invalid name, if any. */
  function FirstInvalid(env: seq<(string, string)>): (r: Option<string>)
    ensures r.None? <==> forall i :: 0 <= i < |env| ==> ValidName(env[i].0)
  {
    if env == [] then None
    else if !ValidName(env[0].0) then Some(env[0].0)
    else FirstInvalid(env[1..])
  }

  function ChangeDirectory(cwd: Option<string>): string {
    if cwd.Some? && cwd.value != [] then "cd " + QuoteSh(cwd.value) + " && " else ""
  }

  function Script(cmd: string, cwd: Option<string>, env: seq<(string, string)>): string {
    ChangeDirectory(cwd) + Exports(env) + cmd
  }

  function RemoteCommand(cmd: string, cwd: Option<string>, env: seq<(string, string)>, sudo: bool)
    : Result<string, CommandError>
  {
    if FirstInvalid(env).Some? then Err(InvalidName(FirstInvalid(env).value))
    else if sudo then Ok("sudo /bin/sh -c " + QuoteSh(Script(cmd, cwd, env)))
    else Ok(Script(cmd, cwd, env))
  }

  lemma OneMoreExport(script: string, name: string, q: string)
    ensures script + "export " + name + "=" + q + " && " == script + ("export " + name + "=" + q + " && ")
  {
    assert script + ("export " + name) == script + "export " + name;
    assert script + ("export " + name + "=") == script + ("export " + name) + "=";
    assert script + ("export " + name + "=" + q) == script + ("export " + name + "=") + q;
  }

  lemma ExportsGrow(before: string, env: seq<(string, string)>)
    ensures env == [] ==> before == before + Exports(env)
    ensures env != [] ==>
      var n := |env| - 1;
      before + Exports(env[..n]) + ("export " + env[n].0 + "=" + QuoteSh(env[n].1) + " && ") == before + Exports(env)
  {
    hide QuoteSh;
    if env != [] {
      var n := |env| - 1;
      var line := "export " + env[n].0 + "=" + QuoteSh(env[n].1) + " && ";
      assert before + (Exports(env[..n]) + line) == before + Exports(env[..n]) + line;
    }
  }

  /** The variables of a map in the order of their names. */
  function Listed(env: map<string, string>, names: seq<string>): (pairs: seq<(string, string)>)
    requires forall name :: name in names ==> name in env
    ensures |pairs| == |names| && forall i :: 0 <= i < |names| ==> pairs[i] == (names[i], env[names[i]])
  {
    seq(|names|, i requires 0 <= i < |names| => (names[i], env[names[i]]))
  }

  /** The command for the variables in name order; there is only one such order. */
  method BuildRemoteCommand(cmd: string, cwd: Option<string>, variables: map<string, string>, sudo: bool)
    returns (r: Result<string, CommandError>)
    ensures forall names :: Lists(names, variables.Keys) ==> r == RemoteCommand(cmd, cwd, Listed(variables, names), sudo)
  {
    var names := Sort(variables.Keys);
    r := BuildFrom(cmd, cwd, Listed(variables, names), sudo);
    forall others | Lists(others, variables.Keys)
      ensures r == RemoteCommand(cmd, cwd, Listed(variables, others), sudo)
    {
      ListedOneWay(names, others, variables.Keys);
    }
  }

  method BuildFrom(cmd: string, cwd: Option<string>, env: seq<(string, string)>, sudo: bool)
    returns (r: Result<string, CommandError>)
    ensures r == RemoteCommand(cmd, cwd, env, sudo)
  {
    hide QuoteSh, ValidName, Exports;
    var script := "";
    if cwd.Some? && cwd.value != [] {
      script := script + "cd ";
      script := script + QuoteSh(cwd.value);
      script := script + " && ";
    }
    assert script == ChangeDirectory(cwd);
    assert env[..0] == [];
    ExportsGrow(script, []);
    for i := 0 to |env|
      invariant FirstInvalid(env) == FirstInvalid(env[i..])
      invariant script == ChangeDirectory(cwd) + Exports(env[..i])
    {
      var name, value := env[i].0, env[i].1;
      assert env[i..][1..] == env[i + 1..];
      if !ValidName(name) {
        return Err(InvalidName(name));
      }
      assert env[..i + 1][..i] == env[..i];
      OneMoreExport(script, name, QuoteSh(value));
      script := script + "export ";
      script := script + name;
      script := script + "=";
      script := script + QuoteSh(value);
      script := script + " && ";
      ExportsGrow(ChangeDirectory(cwd), env[..i + 1]);
    }
    assert env[..|env|] == env;
    script := script + cmd;
    if sudo {
      return Ok("sudo /bin/sh -c " + QuoteSh(script));
    }
    return Ok(script);
  }

  predicate Plain(c: char) {
    c != '\'' && c != '"' && c != '\\' && !IsSpace(c)
  }

  lemma {:induction false} ScanPlain(l: Lexer, s: string, rest: string, lone: bool)
    requires l.quote.None? && s != [] && forall i :: 0 <= i < |s| ==> Plain(s[i])
    ensures Scan(l, s + rest, lone) == Scan(l.(current := l.current + s, inWord := true), rest, lone)
    decreases |s|
  {
    var next := l.(current := l.current + [s[0]], inWord := true);
    assert (s + rest)[1..] == s[1..] + rest;
    if |s| == 1 {
      assert s[1..] + rest == rest && [s[0]] == s;
    } else {
      ScanPlain(next, s[1..], rest, lone);
      assert l.current + [s[0]] + s[1..] == l.current + s;
    }
  }

  /** A plain word and the space behind it. */
  lemma ScanWord(done: seq<string>, s: string, rest: string, lone: bool)
    requires s != [] && forall i :: 0 <= i < |s| ==> Plain(s[i])
    ensures Scan(Lexer(done, "", false, None), s + (" " + rest), lone) == Scan(Lexer(done + [s], "", false, None), rest, lone)
  {
    hide Scan;
    var l := Lexer(done, "", false, None);
    ScanPlain(l, s, " " + rest, lone);
    assert "" + s == s;
    ScanSpace(l.(current := s, inWord := true), rest, lone);
  }

  lemma ScanSudo(q: string, lone: bool)
    ensures Scan(START, "sudo /bin/sh -c " + q, lone) == Scan(Lexer(["sudo", "/bin/sh", "-c"], "", false, None), q, lone)
  {
    hide Scan;
    assert "sudo /bin/sh -c " + q == "sudo" + (" " + ("/bin/sh" + (" " + ("-c" + (" " + q)))));
    ScanWord([], "sudo", "/bin/sh" + (" " + ("-c" + (" " + q))), lone);
    assert [] + ["sudo"] == ["sudo"];
    ScanWord(["sudo"], "/bin/sh", "-c" + (" " + q), lone);
    assert ["sudo"] + ["/bin/sh"] == ["sudo", "/bin/sh"];
    ScanWord(["sudo", "/bin/sh"], "-c", q, lone);
    assert ["sudo", "/bin/sh"] + ["-c"] == ["sudo", "/bin/sh", "-c"];
  }

  /** The sudo form is one command whose only argument to the shell is the whole plain form. */
  lemma SudoFormCarriesScript(cmd: string, cwd: Option<string>, env: seq<(string, string)>, lone: bool)
    requires RemoteCommand(cmd, cwd, env, true).Ok?
    ensures RemoteCommand(cmd, cwd, env, false).Ok?
    ensures Split(RemoteCommand(cmd, cwd, env, true).value, lone)
         == Ok(["sudo", "/bin/sh", "-c", RemoteCommand(cmd, cwd, env, false).value])
  {
    hide Script, Scan, QuoteSh, FirstInvalid;
    var script := Script(cmd, cwd, env);
    ScanSudo(QuoteSh(script), lone);
    var done := ["sudo", "/bin/sh", "-c"];
    ScanJoined(done, [script], lone);
    assert QuoteEach([script]) == [QuoteSh(script)];
    assert done + [script] == ["sudo", "/bin/sh", "-c", script];
  }

  // ---------------------------------------------------------------- nothing escapes its quotes

  /** The words of the prefix a command gets: where to go and what to export, each argument one word. */
  function PrefixWords(cwd: Option<string>, env: seq<(string, string)>): seq<string> {
    (if cwd.Some? && cwd.value != [] then ["cd", cwd.value, "&&"] else []) + ExportWords(env)
  }

  function ExportWords(env: seq<(string, string)>): seq<string> {
    if env == [] then []
    else ExportWords(env[..|env| - 1]) + ["export", env[|env| - 1].0 + "=" + env[|env| - 1].1, "&&"]
  }

  lemma NameIsPlain(name: string)
    requires ValidName(name)
    ensures forall i :: 0 <= i < |name + "="| ==> Plain((name + "=")[i])
  {}

  lemma ScanChangeDirectory(done: seq<string>, dir: string, rest: string, lone: bool)
    ensures Scan(Lexer(done, "", false, None), "cd " + QuoteSh(dir) + " && " + rest, lone)
         == Scan(Lexer(done + ["cd", dir, "&&"], "", false, None), rest, lone)
  {
    hide QuoteSh;
    var after := " " + ("&&" + (" " + rest));
    assert "cd " + QuoteSh(dir) + " && " + rest == "cd" + (" " + (QuoteSh(dir) + after));
    ScanWord(done, "cd", QuoteSh(dir) + after, lone);
    var l := Lexer(done + ["cd"], "", false, None);
    ScanQuoted(l, dir, after, lone);
    assert "" + dir == dir && after[1..] == "&&" + (" " + rest);
    ScanWord(done + ["cd"] + [dir], "&&", rest, lone);
    assert done + ["cd"] + [dir] + ["&&"] == done + ["cd", dir, "&&"];
  }

  lemma PlainWords()
    ensures forall i :: 0 <= i < |"export"| ==> Plain("export"[i])
    ensures forall i :: 0 <= i < |"&&"| ==> Plain("&&"[i])
  {}

  lemma ScanExport(done: seq<string>, name: string, value: string, rest: string, lone: bool)
    requires ValidName(name)
    ensures Scan(Lexer(done, "", false, None), "export " + name + "=" + QuoteSh(value) + " && " + rest, lone)
         == Scan(Lexer(done + ["export", name + "=" + value, "&&"], "", false, None), rest, lone)
  {
    hide QuoteSh, Scan, ValidName, Plain;
    var after := " " + ("&&" + (" " + rest));
    var binding := name + "=" + value;
    assert "export " + name + "=" + QuoteSh(value) + " && " + rest
        == "export" + (" " + ((name + "=") + (QuoteSh(value) + after)));
    PlainWords();
    ScanWord(done, "export", (name + "=") + (QuoteSh(value) + after), lone);
    var l := Lexer(done + ["export"], "", false, None);
    NameIsPlain(name);
    ScanPlain(l, name + "=", QuoteSh(value) + after, lone);
    assert "" + (name + "=") == name + "=";
    ScanQuoted(l.(current := name + "=", inWord := true), value, after, lone);
    ScanSpace(l.(current := binding, inWord := true), "&&" + (" " + rest), lone);
    assert done + ["export"] + [binding] == l.words + [binding];
    ScanWord(done + ["export"] + [binding], "&&", rest, lone);
    assert done + ["export"] + [binding] + ["&&"] == done + ["export", binding, "&&"];
  }

  lemma {:induction false} ScanExports(done: seq<string>, env: seq<(string, string)>, rest: string, lone: bool)
    requires FirstInvalid(env).None?
    ensures Scan(Lexer(done, "", false, None), Exports(env) + rest, lone)
         == Scan(Lexer(done + ExportWords(env), "", false, None), rest, lone)
    decreases |env|
  {
    hide Scan, QuoteSh, ValidName;
    if env == [] {
      assert Exports(env) + rest == rest && done + [] == done;
    } else {
      var n := |env| - 1;
      var last := "export " + env[n].0 + "=" + QuoteSh(env[n].1) + " && ";
      ScanExports(done, env[..n], last + rest, lone);
      assert Exports(env) + rest == Exports(env[..n]) + (last + rest);
      ScanExport(done + ExportWords(env[..n]), env[n].0, env[n].1, rest, lone);
      var words := ["export", env[n].0 + "=" + env[n].1, "&&"];
      assert done + ExportWords(env[..n]) + words == done + (ExportWords(env[..n]) + words);
    }
  }

  lemma {:induction false} DoneWordsStay(done: seq<string>, l: Lexer, s: string, lone: bool)
    ensures Scan(l.(words := done + l.words), s, lone)
         == (var r := Scan(l, s, lone); r.(words := done + r.words))
    decreases |s|
  {
    if s != [] {
      assert done + (l.words + [l.current]) == done + l.words + [l.current];
      forall l': Lexer ensures Scan(l'.(words := done + l'.words), s[1..], lone)
                     == (var r := Scan(l', s[1..], lone); r.(words := done + r.words)) {
        DoneWordsStay(done, l', s[1..], lone);
      }
      if |s| > 1 {
        forall l': Lexer ensures Scan(l'.(words := done + l'.words), s[2..], lone)
                       == (var r := Scan(l', s[2..], lone); r.(words := done + r.words)) {
          DoneWordsStay(done, l', s[2..], lone);
        }
      }
    }
  }

  /**
    Whatever the directory and the values contain, each stays one word of the plain form, and the
    command's own words follow unchanged.
   */
  lemma NothingEscapesItsQuotes(cmd: string, cwd: Option<string>, env: seq<(string, string)>, lone: bool)
    requires RemoteCommand(cmd, cwd, env, false).Ok? && Split(cmd, lone).Ok?
    ensures Split(RemoteCommand(cmd, cwd, env, false).value, lone)
         == Ok(PrefixWords(cwd, env) + Split(cmd, lone).value)
  {
    hide Scan, QuoteSh, Exports, ExportWords;
    var script := Script(cmd, cwd, env);
    var done := if cwd.Some? && cwd.value != [] then ["cd", cwd.value, "&&"] else [];
    var rest := Exports(env) + cmd;
    if done != [] {
      assert script == "cd " + QuoteSh(cwd.value) + " && " + rest;
      ScanChangeDirectory([], cwd.value, rest, lone);
      assert [] + done == done;
    } else {
      assert script == rest;
    }
    ScanExports(done, env, cmd, lone);
    var words := done + ExportWords(env);
    DoneWordsStay(words, START, cmd, lone);
    assert words + [] == words;
    var r := Scan(START, cmd, lone);
    assert words + (r.words + [r.current]) == words + r.words + [r.current];
  }
}
