/** Writing argument lists as text, and reading words back. */
module ShellWords {
  import opened Wrappers

  datatype WordError = UnclosedQuote | TrailingBackslash

  // ---------------------------------------------------------------- joinShellArgs

  predicate NeedsQuotes(c: char) {
    c == ' ' || c == '\t' || c == '\'' || c == '"' || c == '\\'
  }

  /** `'` inside single quotes: leave them, write a double-quoted `'`, enter them again. */
  function EscapeSingle(s: string): string {
    if s == "" then ""
    else (if s[0] == '\'' then "'\"'\"'" else [s[0]]) + EscapeSingle(s[1..])
  }

  function QuoteArg(arg: string): string {
    if arg == "" then "''"
    else if forall i :: 0 <= i < |arg| ==> !NeedsQuotes(arg[i]) then arg
    else "'" + EscapeSingle(arg) + "'"
  }

  function Join(parts: seq<string>): string {
    if parts == [] then ""
    else if |parts| == 1 then parts[0]
    else Join(parts[..|parts| - 1]) + " " + parts[|parts| - 1]
  }

  function QuoteAll(args: seq<string>): seq<string> {
    seq(|args|, i requires 0 <= i < |args| => QuoteArg(args[i]))
  }

  method IndexSpecial(arg: string) returns (i: int)
    ensures -1 <= i < |arg|
    ensures i == -1 <==> forall j :: 0 <= j < |arg| ==> !NeedsQuotes(arg[j])
  {
    i := 0;
    while i < |arg|
      invariant 0 <= i <= |arg|
      invariant forall j :: 0 <= j < i ==> !NeedsQuotes(arg[j])
    {
      if NeedsQuotes(arg[i]) {
        return;
      }
      i := i + 1;
    }
    i := -1;
  }

  method JoinShellArgs(args: seq<string>) returns (line: string)
    ensures line == Join(QuoteAll(args))
    ensures Tokenize(line) == Ok(args)
  {
    var quoted: seq<string> := [];
    var n := 0;
    while n < |args|
      invariant 0 <= n <= |args|
      invariant quoted == QuoteAll(args[..n])
    {
      var arg := args[n];
      if arg == "" {
        quoted := quoted + ["''"];
      } else {
        var special := IndexSpecial(arg);
        if special == -1 {
          quoted := quoted + [arg];
        } else {
          quoted := quoted + ["'" + EscapeSingle(arg) + "'"];
        }
      }
      n := n + 1;
    }
    assert args[..n] == args;
    line := Join(quoted);
    JoinedArgsTokenizeBack(args);
  }

  lemma {:induction false} EscapeKeepsLength(s: string)
    ensures |EscapeSingle(s)| >= |s|
    decreases |s|
  {
    if s != "" {
      EscapeKeepsLength(s[1..]);
    }
  }

  /** Only arguments that would not survive bare are changed: the empty one and those with a blank, a quote
      or a backslash. */
  lemma QuotedExactlyIfNeeded(arg: string)
    ensures QuoteArg(arg) == arg <==>
            arg != "" && forall c :: c in arg ==> c !in {' ', '\t', '\'', '"', '\\'}
  {
    EscapeKeepsLength(arg);
    if arg != "" && forall c :: c in arg ==> c !in {' ', '\t', '\'', '"', '\\'} {
      assert forall i :: 0 <= i < |arg| ==> arg[i] in arg;
    }
    if arg != "" && forall i :: 0 <= i < |arg| ==> !NeedsQuotes(arg[i]) {
      forall c | c in arg ensures c !in {' ', '\t', '\'', '"', '\\'} {
        var i :| 0 <= i < |arg| && arg[i] == c;
        assert !NeedsQuotes(arg[i]);
      }
    }
  }

  // ---------------------------------------------------------------- shell tokens

  /** Where a reader stands by the quoting rules of section 2.2 of the POSIX Shell Command Language,
      restricted to blanks, both quotes and backslash. */
  datatype Mode = Plain | InSingle | InDouble | PlainEscape | DoubleEscape

  /** `started` tells an empty quoted field from no field. */
  datatype Lexer = Lexer(fields: seq<string>, field: string, started: bool, mode: Mode)

  function Lex(l: Lexer, c: char): Lexer {
    match l.mode
    case Plain =>
      if c == ' ' || c == '\t' then
        (if l.started then Lexer(l.fields + [l.field], "", false, Plain) else l)
      else if c == '\'' then l.(started := true, mode := InSingle)
      else if c == '"' then l.(started := true, mode := InDouble)
      else if c == '\\' then l.(started := true, mode := PlainEscape)
      else l.(started := true, field := l.field + [c])
    case InSingle => if c == '\'' then l.(mode := Plain) else l.(field := l.field + [c])
    case InDouble =>
      if c == '"' then l.(mode := Plain)
      else if c == '\\' then l.(mode := DoubleEscape)
      else l.(field := l.field + [c])
    case PlainEscape => l.(field := l.field + [c], mode := Plain)
    case DoubleEscape =>
      // inside double quotes, backslash quotes only `"` and itself among the characters considered
      if c == '"' || c == '\\' then l.(field := l.field + [c], mode := InDouble)
      else l.(field := l.field + ['\\', c], mode := InDouble)
  }

  function LexAll(l: Lexer, s: string): Lexer
    decreases |s|
  {
    if s == "" then l else LexAll(Lex(l, s[0]), s[1..])
  }

  const START := Lexer([], "", false, Plain)

  /** The fields of a line, or an error for an open quote or a trailing backslash. */
  function Tokenize(s: string): Result<seq<string>, WordError> {
    var l := LexAll(START, s);
    if l.mode == PlainEscape then Err(TrailingBackslash)
    else if l.mode != Plain then Err(UnclosedQuote)
    else Ok(if l.started then l.fields + [l.field] else l.fields)
  }

  lemma {:induction false} LexConcat(l: Lexer, a: string, b: string)
    ensures LexAll(l, a + b) == LexAll(LexAll(l, a), b)
    decreases |a|
  {
    if a == "" {
      assert a + b == b;
    } else {
      assert (a + b)[1..] == a[1..] + b;
      LexConcat(Lex(l, a[0]), a[1..], b);
    }
  }

  lemma {:induction false} LexUnquoted(l: Lexer, s: string)
    requires l.mode == Plain
    requires forall i :: 0 <= i < |s| ==> !NeedsQuotes(s[i])
    ensures LexAll(l, s) == l.(field := l.field + s, started := l.started || s != "")
    decreases |s|
  {
    if s != "" {
      LexUnquoted(Lex(l, s[0]), s[1..]);
      assert l.field + [s[0]] + s[1..] == l.field + s;
    }
  }

  /** Leaving the quotes, a quoted `'`, and entering them again adds exactly the `'`. */
  lemma LexQuotedQuote(l: Lexer)
    requires l.mode == InSingle && l.started
    ensures LexAll(l, "'\"'\"'") == l.(field := l.field + ['\''])
  {
    LexConcat(l, "'\"'", "\"'");
    assert "'\"'" + "\"'" == "'\"'\"'";
    LexConcat(l, "'", "\"'");
    assert "'" + "\"'" == "'\"'";
    LexTwo(l.(mode := Plain), '"', '\'');
    LexTwo(l.(mode := InDouble, field := l.field + ['\'']), '"', '\'');
  }

  lemma LexTwo(l: Lexer, c: char, d: char)
    ensures LexAll(l, [c]) == Lex(l, c)
    ensures LexAll(l, [c, d]) == Lex(Lex(l, c), d)
  {
    assert LexAll(Lex(l, c), "") == Lex(l, c);
    assert [c, d][1..] == [d];
    assert [d][1..] == [];
    assert [c][1..] == [];
    assert LexAll(Lex(l, c), [d]) == LexAll(Lex(Lex(l, c), d), []);
  }

  lemma {:induction false} LexEscaped(l: Lexer, s: string)
    requires l.mode == InSingle && l.started
    ensures LexAll(l, EscapeSingle(s)) == l.(field := l.field + s)
    decreases |s|
  {
    if s == "" {
      assert l.field + s == l.field;
    } else {
      var head := if s[0] == '\'' then "'\"'\"'" else [s[0]];
      LexConcat(l, head, EscapeSingle(s[1..]));
      var next := l.(field := l.field + [s[0]]);
      assert LexAll(l, head) == next by {
        if s[0] == '\'' {
          LexQuotedQuote(l);
        } else {
          LexTwo(l, s[0], s[0]);
        }
      }
      LexEscaped(next, s[1..]);
      assert next.field + s[1..] == l.field + s;
    }
  }

  /** Between fields, a quoted argument reads as one field holding that argument. */
  lemma LexQuoteArg(fields: seq<string>, arg: string)
    ensures LexAll(Lexer(fields, "", false, Plain), QuoteArg(arg)) == Lexer(fields, arg, true, Plain)
  {
    var l := Lexer(fields, "", false, Plain);
    if arg == "" {
      LexTwo(l, '\'', '\'');
    } else if forall i :: 0 <= i < |arg| ==> !NeedsQuotes(arg[i]) {
      LexUnquoted(l, arg);
      assert "" + arg == arg;
    } else {
      var inside := Lexer(fields, "", true, InSingle);
      LexConcat(l, "'", EscapeSingle(arg) + "'");
      assert "'" + (EscapeSingle(arg) + "'") == QuoteArg(arg);
      LexTwo(l, '\'', '\'');
      LexConcat(inside, EscapeSingle(arg), "'");
      LexEscaped(inside, arg);
      assert "" + arg == arg;
      LexTwo(inside.(field := arg), '\'', '\'');
    }
  }

  lemma {:induction false} LexJoined(args: seq<string>)
    requires args != []
    ensures LexAll(START, Join(QuoteAll(args))) == Lexer(args[..|args| - 1], args[|args| - 1], true, Plain)
    decreases |args|
  {
    var init, last := args[..|args| - 1], args[|args| - 1];
    assert QuoteAll(args)[..|args| - 1] == QuoteAll(init);
    if init == [] {
      LexQuoteArg([], last);
    } else {
      LexJoined(init);
      var line := Join(QuoteAll(init));
      LexConcat(START, line + " ", QuoteArg(last));
      LexConcat(START, line, " ");
      LexTwo(LexAll(START, line), ' ', ' ');
      assert init[..|init| - 1] + [init[|init| - 1]] == init;
      LexQuoteArg(init, last);
    }
  }

  /** Every argument list, empty arguments and embedded quotes included, is read back unchanged. */
  lemma JoinedArgsTokenizeBack(args: seq<string>)
    ensures Tokenize(Join(QuoteAll(args))) == Ok(args)
  {
    if args != [] {
      LexJoined(args);
      assert args[..|args| - 1] + [args[|args| - 1]] == args;
    } else {
      assert Join(QuoteAll(args)) == "";
    }
  }

  // ---------------------------------------------------------------- parseWords

  /** `unicode.IsSpace`, which decides what `strings.TrimSpace` removes. */
  predicate IsSpace(c: char) {
    || '\t' <= c <= '\r' || c == ' ' || c == '\U{85}' || c == '\U{A0}'
    || c == '\U{1680}' || '\U{2000}' <= c <= '\U{200A}'
    || c == '\U{2028}' || c == '\U{2029}' || c == '\U{202F}' || c == '\U{205F}' || c == '\U{3000}'
  }

  function TrimLeft(s: string): string {
    if s != "" && IsSpace(s[0]) then TrimLeft(s[1..]) else s
  }

  function TrimRight(s: string): string {
    if s != "" && IsSpace(s[|s| - 1]) then TrimRight(s[..|s| - 1]) else s
  }

  function TrimSpace(s: string): string {
    TrimRight(TrimLeft(s))
  }

  /** The loop's variables. `quote` is None outside quotes. */
  datatype Quote = NoQuote | Open(mark: char)

  datatype Scan = Scan(parts: seq<string>, current: string, quote: Quote, escaped: bool)

  function ScanRune(s: Scan, r: char): Scan {
    if s.escaped then s.(current := s.current + [r], escaped := false)
    else if r == '\\' then s.(escaped := true)
    else if s.quote.Open? then
      if r == s.quote.mark then s.(quote := NoQuote) else s.(current := s.current + [r])
    else if r == '\'' || r == '"' then s.(quote := Open(r))
    else if r == ' ' || r == '\t' || r == '\n' then Flush(s)
    else s.(current := s.current + [r])
  }

  function Flush(s: Scan): Scan {
    if |s.current| > 0 then s.(parts := s.parts + [s.current], current := "") else s
  }

  function ScanAll(s: Scan, raw: string): Scan
    decreases |raw|
  {
    if raw == "" then s else ScanAll(ScanRune(s, raw[0]), raw[1..])
  }

  const BEGIN := Scan([], "", NoQuote, false)

  function Words(raw: string): Result<seq<string>, WordError> {
    var end := ScanAll(BEGIN, TrimSpace(raw));
    var closed := if end.escaped then end.(current := end.current + ['\\']) else end;
    if closed.quote.Open? then Err(UnclosedQuote) else Ok(Flush(closed).parts)
  }

  /** Whether a quote is open after the text, found by looking only at quote marks that are not
      preceded by an unpaired backslash. */
  function OpenQuote(text: string): Quote {
    if text == "" then NoQuote
    else
      var init, last := text[..|text| - 1], text[|text| - 1];
      var before := OpenQuote(init);
      if EndsInEscape(init) then before
      else if before == Open(last) then NoQuote
      else if before == NoQuote && (last == '\'' || last == '"') then Open(last)
      else before
  }

  /** The text ends in an odd number of backslashes. */
  predicate EndsInEscape(text: string) {
    text != "" && text[|text| - 1] == '\\' && !EndsInEscape(text[..|text| - 1])
  }

  method ParseWords(raw: string) returns (words: Result<seq<string>, WordError>)
    ensures words == Words(raw)
    ensures words.Err? <==> OpenQuote(TrimSpace(raw)) != NoQuote
  {
    var trimmed := TrimSpace(raw);
    ErrsExactlyOnOpenQuote(raw);
    if trimmed == "" {
      words := Ok([]);
      return;
    }
    var parts: seq<string> := [];
    var current: string := "";
    var quote: Quote := NoQuote;
    var escaped := false;
    var n := 0;
    while n < |trimmed|
      invariant 0 <= n <= |trimmed|
      invariant ScanAll(BEGIN, trimmed) == ScanAll(Scan(parts, current, quote, escaped), trimmed[n..])
    {
      var r := trimmed[n];
      ghost var before := Scan(parts, current, quote, escaped);
      assert trimmed[n..][1..] == trimmed[n + 1..];
      if escaped {
        current := current + [r];
        escaped := false;
      } else if r == '\\' {
        escaped := true;
      } else if quote != NoQuote {
        if r == quote.mark {
          quote := NoQuote;
        } else {
          current := current + [r];
        }
      } else if r == '\'' || r == '"' {
        quote := Open(r);
      } else if r == ' ' || r == '\t' || r == '\n' {
        if |current| > 0 {
          parts := parts + [current];
          current := "";
        }
      } else {
        current := current + [r];
      }
      assert Scan(parts, current, quote, escaped) == ScanRune(before, r);
      n := n + 1;
    }
    if escaped {
      current := current + ['\\'];
    }
    if quote != NoQuote {
      words := Err(UnclosedQuote);
      return;
    }
    if |current| > 0 {
      parts := parts + [current];
    }
    words := Ok(parts);
  }

  lemma {:induction false} ScanConcat(s: Scan, a: string, b: string)
    ensures ScanAll(s, a + b) == ScanAll(ScanAll(s, a), b)
    decreases |a|
  {
    if a == "" {
      assert a + b == b;
    } else {
      assert (a + b)[1..] == a[1..] + b;
      ScanConcat(ScanRune(s, a[0]), a[1..], b);
    }
  }

  lemma ScanOne(s: Scan, r: char)
    ensures ScanAll(s, [r]) == ScanRune(s, r)
  {
    assert [r][1..] == [];
    assert ScanAll(ScanRune(s, r), []) == ScanRune(s, r);
  }

  lemma {:induction false} ScanTracksQuote(text: string)
    ensures ScanAll(BEGIN, text).quote == OpenQuote(text)
    ensures ScanAll(BEGIN, text).escaped <==> EndsInEscape(text)
    ensures OpenQuote(text).Open? ==> OpenQuote(text).mark in {'\'', '"'}
    decreases |text|
  {
    if text != "" {
      var init, last := text[..|text| - 1], text[|text| - 1];
      ScanTracksQuote(init);
      assert text == init + [last];
      ScanConcat(BEGIN, init, [last]);
      ScanOne(ScanAll(BEGIN, init), last);
    }
  }

  /** Parsing fails exactly when a quote is open at the end of the trimmed text. */
  lemma ErrsExactlyOnOpenQuote(raw: string)
    ensures Words(raw).Err? <==> OpenQuote(TrimSpace(raw)) != NoQuote
  {
    ScanTracksQuote(TrimSpace(raw));
  }

  // ---------------------------------------------------------------- every non-empty word can be written

  function EscapeDouble(s: string): string {
    if s == "" then ""
    else (if s[0] == '"' || s[0] == '\\' then ['\\', s[0]] else [s[0]]) + EscapeDouble(s[1..])
  }

  function WriteWord(word: string): string {
    "\"" + EscapeDouble(word) + "\""
  }

  function WriteWords(words: seq<string>): string {
    Join(seq(|words|, i requires 0 <= i < |words| => WriteWord(words[i])))
  }

  function NonEmpty(words: seq<string>): seq<string> {
    if words == [] then []
    else NonEmpty(words[..|words| - 1]) + if words[|words| - 1] == "" then [] else [words[|words| - 1]]
  }

  lemma ScanTwo(s: Scan, a: char, b: char)
    ensures ScanAll(s, [a, b]) == ScanRune(ScanRune(s, a), b)
  {
    assert [a, b] == [a] + [b];
    ScanConcat(s, [a], [b]);
    ScanOne(s, a);
    ScanOne(ScanRune(s, a), b);
  }

  lemma {:induction false} ScanEscaped(s: Scan, text: string)
    requires s.quote == Open('"') && !s.escaped
    ensures ScanAll(s, EscapeDouble(text)) == s.(current := s.current + text)
    decreases |text|
  {
    if text == "" {
      assert s.current + text == s.current;
    } else {
      var next := s.(current := s.current + [text[0]]);
      var head := if text[0] == '"' || text[0] == '\\' then ['\\', text[0]] else [text[0]];
      ScanConcat(s, head, EscapeDouble(text[1..]));
      if text[0] == '"' || text[0] == '\\' {
        ScanTwo(s, '\\', text[0]);
      } else {
        ScanOne(s, text[0]);
      }
      ScanEscaped(next, text[1..]);
      assert next.current + text[1..] == s.current + text;
    }
  }

  lemma ScanWord(parts: seq<string>, word: string)
    ensures ScanAll(Scan(parts, "", NoQuote, false), WriteWord(word)) == Scan(parts, word, NoQuote, false)
  {
    var s := Scan(parts, "", NoQuote, false);
    var inside := s.(quote := Open('"'));
    ScanConcat(s, "\"", EscapeDouble(word) + "\"");
    assert "\"" + (EscapeDouble(word) + "\"") == WriteWord(word);
    ScanOne(s, '"');
    ScanConcat(inside, EscapeDouble(word), "\"");
    ScanEscaped(inside, word);
    assert "" + word == word;
    ScanOne(inside.(current := word), '"');
  }

  lemma {:induction false} ScanWritten(words: seq<string>)
    requires words != []
    ensures ScanAll(BEGIN, WriteWords(words)) ==
            Scan(NonEmpty(words[..|words| - 1]), words[|words| - 1], NoQuote, false)
    ensures WriteWords(words) != "" && WriteWords(words)[0] == '"' && WriteWords(words)[|WriteWords(words)| - 1] == '"'
    decreases |words|
  {
    var init, last := words[..|words| - 1], words[|words| - 1];
    var written := seq(|words|, i requires 0 <= i < |words| => WriteWord(words[i]));
    assert written[..|words| - 1] == seq(|init|, i requires 0 <= i < |init| => WriteWord(init[i]));
    if init == [] {
      assert WriteWords(words) == WriteWord(last);
      ScanWord([], last);
    } else {
      ScanWritten(init);
      var line := WriteWords(init);
      assert WriteWords(words) == line + " " + WriteWord(last);
      ScanConcat(BEGIN, line + " ", WriteWord(last));
      ScanConcat(BEGIN, line, " ");
      var before := ScanAll(BEGIN, line);
      ScanOne(before, ' ');
      assert Flush(before) == Scan(NonEmpty(init), "", NoQuote, false);
      ScanWord(NonEmpty(init), last);
    }
  }

  lemma {:induction false} NonEmptyIsAll(words: seq<string>)
    ensures |NonEmpty(words)| <= |words|
    ensures NonEmpty(words) == words <==> "" !in words
    ensures |NonEmpty(words)| == |words| ==> "" !in words
  {
    if words != [] {
      NonEmptyIsAll(words[..|words| - 1]);
      assert words == words[..|words| - 1] + [words[|words| - 1]];
    }
  }

  lemma QuotedIsTrimmed(s: string)
    requires s != "" && s[0] == '"' && s[|s| - 1] == '"'
    ensures TrimSpace(s) == s
  {
    assert !IsSpace('"');
  }

  /** Words written in double quotes, with a backslash before `"` and `\`, and joined by spaces, are
      read back without the empty ones; so a list is read back unchanged exactly when no word is empty. */
  lemma WrittenWordsParseBack(words: seq<string>)
    ensures Words(WriteWords(words)) == Ok(NonEmpty(words))
    ensures Words(WriteWords(words)) == Ok(words) <==> "" !in words
  {
    NonEmptyIsAll(words);
    if words == [] {
      assert WriteWords(words) == "";
      assert TrimSpace("") == "";
    } else {
      ScanWritten(words);
      var end := Scan(NonEmpty(words[..|words| - 1]), words[|words| - 1], NoQuote, false);
      assert Flush(end).parts == NonEmpty(words);
      QuotedIsTrimmed(WriteWords(words));
    }
  }
}
