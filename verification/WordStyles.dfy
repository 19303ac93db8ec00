/** Words written in any style come back from `parseWords`: plain, with backslashes, in either kind of quotes
    or in any mixture, separated by any blanks. */
module WordStyles {
  import opened Wrappers
  import opened ShellWords

  // ---------------------------------------------------------------- writing words

  predicate IsBlank(c: char) {
    c == ' ' || c == '\t' || c == '\n'
  }

  predicate IsPlain(c: char) {
    !IsBlank(c) && c != '\'' && c != '"' && c != '\\'
  }

  /** A stretch of a word: as it is, one rune after a backslash, or in quotes, where the quote itself and
      the backslash take a backslash, in single quotes too. */
  datatype Piece = Bare(text: string) | Escaped(rune: char) | Quoted(mark: char, text: string)

  ghost predicate IsPiece(p: Piece) {
    match p
    case Bare(text) => forall i :: 0 <= i < |text| ==> IsPlain(text[i])
    case Escaped(_) => true
    case Quoted(mark, _) => mark == '\'' || mark == '"'
  }

  function TextOf(p: Piece): string {
    match p
    case Bare(text) => text
    case Escaped(rune) => [rune]
    case Quoted(_, text) => text
  }

  function Inside(mark: char, text: string): string {
    if text == "" then ""
    else Inside(mark, text[..|text| - 1]) +
         if text[|text| - 1] == mark || text[|text| - 1] == '\\' then ['\\', text[|text| - 1]] else [text[|text| - 1]]
  }

  function Written(p: Piece): string {
    match p
    case Bare(text) => text
    case Escaped(rune) => ['\\', rune]
    case Quoted(mark, text) => [mark] + Inside(mark, text) + [mark]
  }

  function WordOf(pieces: seq<Piece>): string {
    if pieces == [] then "" else WordOf(pieces[..|pieces| - 1]) + TextOf(pieces[|pieces| - 1])
  }

  function WrittenWord(pieces: seq<Piece>): string {
    if pieces == [] then "" else WrittenWord(pieces[..|pieces| - 1]) + Written(pieces[|pieces| - 1])
  }

  /** A written word that is not empty, after the blanks that part it from the one before. */
  datatype Token = Token(blanks: string, pieces: seq<Piece>)

  ghost predicate IsToken(t: Token) {
    && (forall i :: 0 <= i < |t.blanks| ==> IsBlank(t.blanks[i]))
    && (forall i :: 0 <= i < |t.pieces| ==> IsPiece(t.pieces[i]))
    && WordOf(t.pieces) != ""
  }

  /** Blanks stand before every word but the first. */
  ghost predicate IsText(tokens: seq<Token>) {
    forall i :: 0 <= i < |tokens| ==> IsToken(tokens[i]) && (tokens[i].blanks == "" <==> i == 0)
  }

  function WordsOf(tokens: seq<Token>): seq<string> {
    if tokens == [] then [] else WordsOf(tokens[..|tokens| - 1]) + [WordOf(tokens[|tokens| - 1].pieces)]
  }

  function Line(tokens: seq<Token>): string {
    if tokens == [] then ""
    else Line(tokens[..|tokens| - 1]) + tokens[|tokens| - 1].blanks + WrittenWord(tokens[|tokens| - 1].pieces)
  }

  // ---------------------------------------------------------------- the scan gives the words back

  lemma {:induction false} ScanBare(s: Scan, text: string)
    requires s.quote == NoQuote && !s.escaped && forall i :: 0 <= i < |text| ==> IsPlain(text[i])
    ensures ScanAll(s, text) == s.(current := s.current + text)
    decreases |text|
  {
    if text == "" {
      assert s.current + text == s.current;
    } else {
      ScanBare(s.(current := s.current + [text[0]]), text[1..]);
      assert s.current + [text[0]] + text[1..] == s.current + text;
    }
  }

  lemma {:induction false} ScanInside(s: Scan, mark: char, text: string)
    requires s.quote == Open(mark) && !s.escaped
    ensures ScanAll(s, Inside(mark, text)) == s.(current := s.current + text)
    decreases |text|
  {
    if text == "" {
      assert s.current + text == s.current;
    } else {
      var init, last := text[..|text| - 1], text[|text| - 1];
      ScanInside(s, mark, init);
      var next := s.(current := s.current + init);
      if last == mark || last == '\\' {
        ScanConcat(s, Inside(mark, init), ['\\', last]);
        ScanTwo(next, '\\', last);
      } else {
        ScanConcat(s, Inside(mark, init), [last]);
        ScanOne(next, last);
      }
      assert s.current + init + [last] == s.current + text;
    }
  }

  lemma ScanPiece(s: Scan, p: Piece)
    requires s.quote == NoQuote && !s.escaped && IsPiece(p)
    ensures ScanAll(s, Written(p)) == s.(current := s.current + TextOf(p))
  {
    match p
    case Bare(text) => ScanBare(s, text);
    case Escaped(rune) => ScanTwo(s, '\\', rune);
    case Quoted(mark, text) =>
      var inside := s.(quote := Open(mark));
      ScanConcat(s, [mark] + Inside(mark, text), [mark]);
      ScanConcat(s, [mark], Inside(mark, text));
      ScanOne(s, mark);
      ScanInside(inside, mark, text);
      ScanOne(inside.(current := s.current + text), mark);
  }

  lemma {:induction false} ScanPieces(s: Scan, pieces: seq<Piece>)
    requires s.quote == NoQuote && !s.escaped && forall i :: 0 <= i < |pieces| ==> IsPiece(pieces[i])
    ensures ScanAll(s, WrittenWord(pieces)) == s.(current := s.current + WordOf(pieces))
    decreases |pieces|
  {
    if pieces == [] {
      assert s.current + "" == s.current;
    } else {
      var init, last := pieces[..|pieces| - 1], pieces[|pieces| - 1];
      ScanPieces(s, init);
      ScanConcat(s, WrittenWord(init), Written(last));
      ScanPiece(s.(current := s.current + WordOf(init)), last);
      Regroup(s.current, WordOf(init), TextOf(last));
    }
  }

  lemma {:induction false} ScanBlanks(s: Scan, blanks: string)
    requires s.quote == NoQuote && !s.escaped && forall i :: 0 <= i < |blanks| ==> IsBlank(blanks[i])
    ensures ScanAll(s, blanks) == if blanks == "" then s else Flush(s)
    decreases |blanks|
  {
    if blanks != "" {
      ScanBlanks(Flush(s), blanks[1..]);
    }
  }

  lemma ScanToken(s: Scan, t: Token)
    requires s.quote == NoQuote && !s.escaped && IsToken(t)
    ensures var before := if t.blanks == "" then s else Flush(s);
            ScanAll(s, t.blanks + WrittenWord(t.pieces)) == before.(current := before.current + WordOf(t.pieces))
  {
    ScanConcat(s, t.blanks, WrittenWord(t.pieces));
    ScanBlanks(s, t.blanks);
    ScanPieces(if t.blanks == "" then s else Flush(s), t.pieces);
  }

  /** One more token after a scan that stands at the end of a word, or at the start. */
  lemma ScanNext(parts: seq<string>, current: string, t: Token)
    requires IsToken(t) && (t.blanks == "" <==> current == "") && (current == "" ==> parts == [])
    ensures ScanAll(Scan(parts, current, NoQuote, false), t.blanks + WrittenWord(t.pieces)) ==
            Scan(if current == "" then [] else parts + [current], WordOf(t.pieces), NoQuote, false)
  {
    ScanToken(Scan(parts, current, NoQuote, false), t);
    assert "" + WordOf(t.pieces) == WordOf(t.pieces);
  }

  lemma {:induction false} ScanLine(tokens: seq<Token>)
    requires IsText(tokens) && tokens != []
    ensures var last := |tokens| - 1;
            ScanAll(BEGIN, Line(tokens)) == Scan(WordsOf(tokens[..last]), WordOf(tokens[last].pieces), NoQuote, false)
    decreases |tokens|
  {
    var init, last := tokens[..|tokens| - 1], tokens[|tokens| - 1];
    Regroup(Line(init), last.blanks, WrittenWord(last.pieces));
    ScanConcat(BEGIN, Line(init), last.blanks + WrittenWord(last.pieces));
    if init == [] {
      ScanNext([], "", last);
    } else {
      ScanLine(init);
      assert IsToken(tokens[|tokens| - 2]);
      ScanNext(WordsOf(init[..|init| - 1]), WordOf(init[|init| - 1].pieces), last);
    }
  }

  // ---------------------------------------------------------------- trimming comes first

  ghost predicate AllSpace(s: string) {
    forall i :: 0 <= i < |s| ==> IsSpace(s[i])
  }

  lemma {:induction false} TrimLeftAll(s: string, rest: string)
    requires AllSpace(s)
    ensures TrimLeft(s + rest) == TrimLeft(rest)
    decreases |s|
  {
    if s == "" {
      assert s + rest == rest;
    } else {
      assert (s + rest)[1..] == s[1..] + rest;
      TrimLeftAll(s[1..], rest);
    }
  }

  lemma {:induction false} TrimRightAll(s: string, trail: string)
    requires AllSpace(trail)
    ensures TrimRight(s + trail) == TrimRight(s)
    decreases |trail|
  {
    if trail == "" {
      assert s + trail == s;
    } else {
      assert (s + trail)[..|s + trail| - 1] == s + trail[..|trail| - 1];
      TrimRightAll(s, trail[..|trail| - 1]);
    }
  }

  lemma {:induction false} TrimTrail(s: string, trail: string)
    requires AllSpace(trail)
    ensures TrimSpace(s + trail) == TrimSpace(s)
    decreases |s|
  {
    if s == "" {
      TrimLeftAll(trail, "");
      assert s + trail == trail + "";
    } else if IsSpace(s[0]) {
      assert (s + trail)[1..] == s[1..] + trail;
      TrimTrail(s[1..], trail);
    } else {
      TrimRightAll(s, trail);
    }
  }

  /** Spaces around a text do not show. */
  lemma TrimOuter(lead: string, s: string, trail: string)
    requires AllSpace(lead) && AllSpace(trail)
    ensures TrimSpace(lead + s + trail) == TrimSpace(s)
  {
    Regroup(lead, s, trail);
    TrimLeftAll(lead, s + trail);
    TrimTrail(s, trail);
  }

  // ---------------------------------------------------------------- what trimming can cost

  function Total(parts: seq<string>): nat {
    if parts == [] then 0 else Total(parts[..|parts| - 1]) + |parts[|parts| - 1]|
  }

  lemma TotalSnoc(parts: seq<string>, last: string)
    ensures Total(parts + [last]) == Total(parts) + |last|
  {
    assert (parts + [last])[..|parts|] == parts;
  }

  /** How many runes a scan has put into words. */
  function Content(s: Scan): nat {
    Total(s.parts) + |s.current|
  }

  function Gain(quote: Quote, escaped: bool, r: char): nat {
    if escaped then 1
    else if r == '\\' then 0
    else if quote.Open? then (if r == quote.mark then 0 else 1)
    else if IsPlain(r) then 1 else 0
  }

  lemma RuneGains(s: Scan, r: char)
    ensures Content(ScanRune(s, r)) == Content(s) + Gain(s.quote, s.escaped, r)
  {
    if !s.escaped && s.quote == NoQuote && IsBlank(r) {
      TotalSnoc(s.parts, s.current);
    } else {
      assert ScanRune(s, r).parts == s.parts;
    }
  }

  lemma RuneAdds(a: Scan, b: Scan, r: char)
    requires a.quote == b.quote && a.escaped == b.escaped
    ensures ScanRune(a, r).quote == ScanRune(b, r).quote && ScanRune(a, r).escaped == ScanRune(b, r).escaped
    ensures Content(ScanRune(a, r)) + Content(b) == Content(ScanRune(b, r)) + Content(a)
  {
    RuneGains(a, r);
    RuneGains(b, r);
  }

  lemma {:induction false} ScanAdds(a: Scan, b: Scan, text: string)
    requires a.quote == b.quote && a.escaped == b.escaped
    ensures ScanAll(a, text).escaped == ScanAll(b, text).escaped
    ensures Content(ScanAll(a, text)) + Content(b) == Content(ScanAll(b, text)) + Content(a)
    decreases |text|
  {
    if text != "" {
      RuneAdds(a, b, text[0]);
      ScanAdds(ScanRune(a, text[0]), ScanRune(b, text[0]), text[1..]);
    }
  }

  /** The runes in the words of a text, a trailing backslash included. */
  function Size(text: string): nat {
    var end := ScanAll(BEGIN, text);
    Content(end) + if end.escaped then 1 else 0
  }

  lemma SizeOfWords(raw: string)
    ensures Words(raw).Ok? ==> Total(Words(raw).value) == Size(TrimSpace(raw))
  {
    var end := ScanAll(BEGIN, TrimSpace(raw));
    var closed := if end.escaped then end.(current := end.current + ['\\']) else end;
    TotalSnoc(closed.parts, closed.current);
  }

  /** A space at the front costs nothing if it is a blank, and is lost otherwise. */
  lemma {:induction false} TrimLeftShrinks(s: string)
    ensures Size(TrimLeft(s)) <= Size(s)
    ensures s != "" && IsSpace(s[0]) && !IsBlank(s[0]) ==> Size(TrimLeft(s)) < Size(s)
    decreases |s|
  {
    if s != "" && IsSpace(s[0]) {
      TrimLeftShrinks(s[1..]);
      var first := ScanRune(BEGIN, s[0]);
      ScanAdds(first, BEGIN, s[1..]);
      if !IsBlank(s[0]) {
        assert first == Scan([], "" + [s[0]], NoQuote, false);
      }
    }
  }

  /** So at the end, where an escaped space leaves its backslash behind. */
  lemma SpaceAtEnd(s: string, c: char)
    requires IsSpace(c)
    ensures var before := ScanAll(BEGIN, s);
            && ScanAll(BEGIN, s + [c]) == ScanRune(before, c)
            && Size(s) <= Size(s + [c])
            && !ScanAll(BEGIN, s + [c]).escaped
            && (Size(s) == Size(s + [c]) ==> before.escaped || (before.quote == NoQuote && IsBlank(c)))
  {
    ScanConcat(BEGIN, s, [c]);
    ScanOne(ScanAll(BEGIN, s), c);
    ScanTracksQuote(s);
    SpaceAdds(ScanAll(BEGIN, s), c);
  }

  lemma SpaceAdds(s: Scan, c: char)
    requires IsSpace(c) && s.quote != Open(c)
    ensures var r := ScanRune(s, c);
            && !r.escaped
            && Content(r) == Content(s) + if !s.escaped && s.quote == NoQuote && IsBlank(c) then 0 else 1
  {
    RuneGains(s, c);
  }

  lemma {:induction false} TrimRightShrinks(s: string)
    ensures Size(TrimRight(s)) <= Size(s)
    decreases |s|
  {
    if s != "" && IsSpace(s[|s| - 1]) {
      var init := s[..|s| - 1];
      TrimRightShrinks(init);
      SpaceAtEnd(init, s[|s| - 1]);
      assert s == init + [s[|s| - 1]];
    }
  }

  lemma {:induction false} WrittenStartsUnblank(pieces: seq<Piece>)
    requires forall i :: 0 <= i < |pieces| ==> IsPiece(pieces[i])
    ensures WrittenWord(pieces) == "" || !IsBlank(WrittenWord(pieces)[0])
    ensures WrittenWord(pieces) == "" ==> WordOf(pieces) == ""
    decreases |pieces|
  {
    if pieces != [] {
      assert IsPiece(pieces[|pieces| - 1]);
      WrittenStartsUnblank(pieces[..|pieces| - 1]);
    }
  }

  lemma {:induction false} LineStartsUnblank(tokens: seq<Token>)
    requires IsText(tokens) && tokens != []
    ensures Line(tokens) != "" && !IsBlank(Line(tokens)[0])
    decreases |tokens|
  {
    var init, last := tokens[..|tokens| - 1], tokens[|tokens| - 1];
    if init == [] {
      WrittenStartsUnblank(last.pieces);
    } else {
      LineStartsUnblank(init);
    }
  }

  // ---------------------------------------------------------------- every style parses back

  /** Neither end of the text is a space that trimming takes off: at the front that of a plain word, at the
      end that of a plain word or one after a backslash. */
  ghost predicate EndsAreSafe(line: string) {
    line == "" || (!IsSpace(line[0]) && !IsSpace(line[|line| - 1]))
  }

  lemma SafeParses(tokens: seq<Token>)
    requires IsText(tokens) && EndsAreSafe(Line(tokens))
    ensures Words(Line(tokens)) == Ok(WordsOf(tokens))
  {
    if tokens != [] {
      ScanLine(tokens);
      assert TrimSpace(Line(tokens)) == Line(tokens);
    }
  }

  lemma SizeOfLine(tokens: seq<Token>)
    requires IsText(tokens) && tokens != []
    ensures Size(Line(tokens)) == Total(WordsOf(tokens))
  {
    ScanLine(tokens);
  }

  lemma UnsafeFront(tokens: seq<Token>)
    requires IsText(tokens) && tokens != [] && Line(tokens) != "" && IsSpace(Line(tokens)[0])
    ensures Words(Line(tokens)) != Ok(WordsOf(tokens))
  {
    LineStartsUnblank(tokens);
    TrimLeftShrinks(Line(tokens));
    TrimRightShrinks(TrimLeft(Line(tokens)));
    SizeOfLine(tokens);
    SizeOfWords(Line(tokens));
  }

  lemma LineEndsInWord(tokens: seq<Token>)
    requires IsText(tokens) && tokens != []
    ensures ScanAll(BEGIN, Line(tokens)).current != "" && Flush(ScanAll(BEGIN, Line(tokens))).parts == WordsOf(tokens)
  {
    ScanLine(tokens);
    assert IsToken(tokens[|tokens| - 1]);
  }

  lemma UnsafeEnd(line: string)
    requires line != "" && !IsSpace(line[0]) && IsSpace(line[|line| - 1]) && ScanAll(BEGIN, line).current != ""
    ensures Words(line) != Ok(Flush(ScanAll(BEGIN, line)).parts)
  {
    UnsafeLine(line, line[..|line| - 1], line[|line| - 1]);
  }

  lemma UnsafeLine(line: string, init: string, c: char)
    requires line == init + [c] && IsSpace(c) && !IsSpace(line[0]) && ScanAll(BEGIN, line).current != ""
    ensures Words(line) != Ok(Flush(ScanAll(BEGIN, line)).parts)
  {
    SpaceAtEnd(init, c);
    if ScanAll(BEGIN, init).escaped {
      BackslashStays(line, init, c);
    } else {
      SpaceIsLost(line, init, c);
      FlushKeepsTotal(ScanAll(BEGIN, line));
    }
  }

  lemma FlushKeepsTotal(s: Scan)
    ensures Total(Flush(s).parts) == Content(s)
  {
    TotalSnoc(s.parts, s.current);
  }

  lemma SpaceIsLost(line: string, init: string, c: char)
    requires line == init + [c] && IsSpace(c) && !IsSpace(line[0])
    requires !ScanAll(BEGIN, init).escaped && ScanAll(BEGIN, line).current != ""
    ensures Words(line).Ok? ==> Total(Words(line).value) < Size(line)
  {
    TrimEnd(line, init, c);
    LastSpaceCounts(init, c);
    TrimRightShrinks(init);
    SizeOfWords(line);
  }

  lemma TrimEnd(line: string, init: string, c: char)
    requires line == init + [c] && IsSpace(c) && !IsSpace(line[0])
    ensures TrimSpace(line) == TrimRight(init)
  {
    assert line[..|line| - 1] == init;
  }

  lemma LastSpaceCounts(init: string, c: char)
    requires IsSpace(c) && !ScanAll(BEGIN, init).escaped && ScanAll(BEGIN, init + [c]).current != ""
    ensures Size(init) < Size(init + [c])
  {
    SpaceAtEnd(init, c);
  }

  lemma BackslashStays(line: string, init: string, c: char)
    requires line == init + [c] && IsSpace(c) && ScanAll(BEGIN, init).escaped && line != "" && !IsSpace(line[0])
    requires ScanAll(BEGIN, line) == ScanRune(ScanAll(BEGIN, init), c)
    ensures Words(line) != Ok(Flush(ScanAll(BEGIN, line)).parts)
  {
    ScanTracksQuote(init);
    TrimEnd(line, init, c);
    assert EndsInEscape(init) && init[|init| - 1] == '\\';
    var before := ScanAll(BEGIN, init);
    var kept, was := before.current + ['\\'], before.current + [c];
    assert kept[|before.current|] != was[|before.current|];
    assert (before.parts + [kept])[|before.parts|] != (before.parts + [was])[|before.parts|];
  }

  /** What trimming can take: a plain word of one no-break space, and the space after a last backslash. */
  lemma TrimmingTakesWords()
    ensures Words(['\U{A0}']) == Ok([])
    ensures Words(['a', '\\', ' ']) == Ok([['a', '\\']])
  {
    assert TrimSpace(['\U{A0}']) == "" by {
      TrimLeftAll(['\U{A0}'], "");
      assert ['\U{A0}'] + "" == ['\U{A0}'];
    }
    BackslashTaken(['a', '\\']);
    assert ['a', '\\'] + [' '] == ['a', '\\', ' '];
  }

  lemma BackslashTaken(text: string)
    requires text == ['a', '\\']
    ensures Words(text + [' ']) == Ok([text])
  {
    var raw := text + [' '];
    TrimEnd(raw, text, ' ');
    assert TrimSpace(raw) == TrimRight(text) == text;
    ScanTwo(BEGIN, 'a', '\\');
    var end := ScanAll(BEGIN, text);
    assert end.parts == [] && end.current == ['a'] && end.escaped && end.quote == NoQuote;
    assert end.current + ['\\'] == text;
    assert [] + [text] == [text];
    assert Flush(end.(current := end.current + ['\\'])).parts == [] + [text];
  }

  /** Words in any style come back. Every list of non-empty words, each in stretches that are plain, after a
      backslash or in either kind of quotes, with any blanks between them and any spaces around them, is
      read back unchanged if and only if trimming takes nothing off a word at either end. */
  lemma {:induction false} AnyStyleParsesBack(lead: string, tokens: seq<Token>, trail: string)
    requires IsText(tokens) && AllSpace(lead) && AllSpace(trail)
    ensures Words(lead + Line(tokens) + trail) == Ok(WordsOf(tokens)) <==> EndsAreSafe(Line(tokens))
  {
    TrimOuter(lead, Line(tokens), trail);
    if EndsAreSafe(Line(tokens)) {
      SafeParses(tokens);
    } else if IsSpace(Line(tokens)[0]) {
      UnsafeFront(tokens);
    } else {
      LineEndsInWord(tokens);
      UnsafeEnd(Line(tokens));
    }
  }
}
