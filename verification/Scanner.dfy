/** The scanner's own loop: one cursor over the characters, a running line and column, and text buffers. */
module Scanner {
  import opened Types
  import opened Lexer

  /** What is left of the whole result once `step` has been taken at `i`. */
  ghost predicate Continues(src: string, done: seq<(Token, nat)>, i: nat, step: Step) {
    match step
    case Skip(n) => i + n <= |src| && LexFrom(src) == After(done, i + n, LexFrom(src[i + n..]))
    case Emit(t, n) =>
      i + n <= |src| && LexFrom(src) == After(done + [(t, i)], i + n, LexFrom(src[i + n..])) &&
        Inside(src, done + [(t, i)])
    case Fail(e) => LexFrom(src) == Err((e, i))
  }

  lemma FailsAfter(done: seq<(Token, nat)>, i: nat, step: Step)
    ensures step.Fail? ==> After(done, i, Err((step.error, 0))) == Err((step.error, i))
  {
  }

  /** The front of the remaining text is a step that leads `n` characters on. */
  lemma StepOn(src: string, done: seq<(Token, nat)>, i: nat)
    requires i < |src| && Inside(src, done) && LexFrom(src) == After(done, i, LexFrom(src[i..]))
    ensures Continues(src, done, i, Scan(src[i..]))
  {
    hide Scan, PosAt, LexFrom, After;
    var s := src[i..];
    LexStep(s);
    FailsAfter(done, i, Scan(s));
    match Scan(s)
    case Skip(n) =>
      assert s[n..] == src[i + n..];
      AfterAfter(done, i, [], n, LexFrom(s[n..]));
      assert done + Shift([], i) == done;
    case Emit(t, n) =>
      assert s[n..] == src[i + n..];
      AfterAfter(done, i, [(t, 0)], n, LexFrom(s[n..]));
      assert Shift([(t, 0)], i) == [(t, i)];
    case Fail(e) =>
  }

  /** A string literal whose opening quote is at `start`. */
  method LexString(src: string, start: nat, line0: nat, col0: nat)
    returns (r: Result<string, LexError>, i: nat, line: nat, col: nat)
    requires start < |src| && src[start] == '"' && Span(line0, col0) == PosAt(src, start)
    ensures match ScanString(src[start + 1..])
            case Closed(content, len) => r == Ok(content) && i == start + 1 + len && Span(line, col) == PosAt(src, i)
            case Broken(error) => r == Err(error)
    ensures r.Ok? ==> i <= |src|
  {
    hide ScanString, PosAt;
    ghost var scan := ScanString(src[start + 1..]);
    PosNext(src, start);
    i, line, col := start + 1, line0, col0 + 1;
    var s := "";
    while i < |src|
      invariant start < i <= |src| && Span(line, col) == PosAt(src, i)
      invariant scan == Prefixed(s, i - start - 1, ScanString(src[i..]))
    {
      var c := src[i];
      PosNext(src, i);
      StringStep(src, i);
      if c == '"' {
        assert s + "" == s;
        return Ok(s), i + 1, line, col + 1;
      } else if c == '\\' {
        if i + 1 == |src| { return Err(UnterminatedString), i, line, col; }
        var esc := src[i + 1];
        var unescaped := Unescape(esc);
        if unescaped.None? { return Err(UnknownEscape(esc)), i, line, col; }
        PosNext(src, i + 1);
        PrefixedOn(s, i - start - 1, unescaped.value, 2, ScanString(src[i + 2..]));
        s, i, col := s + [unescaped.value], i + 2, col + 2;
      } else {
        PrefixedOn(s, i - start - 1, c, 1, ScanString(src[i + 1..]));
        if c == '\n' {
          s, i, line, col := s + ['\n'], i + 1, line + 1, 1;
        } else {
          s, i, col := s + [c], i + 1, col + 1;
        }
      }
    }
    assert ScanString(src[i..]) == Broken(UnterminatedString) by { StringEnds(src[i..]); }
    return Err(UnterminatedString), i, line, col;
  }

  lemma StringEnds(s: string)
    requires s == []
    ensures ScanString(s) == Broken(UnterminatedString)
  {
  }

  lemma StringStep(src: string, i: nat)
    requires i < |src|
    ensures ScanString(src[i..]) ==
            if src[i] == '"' then Closed("", 1)
            else if src[i] != '\\' then ScanString(src[i + 1..]).Prepend(src[i], 1)
            else if i + 1 == |src| then Broken(UnterminatedString)
            else if Unescape(src[i + 1]).None? then Broken(UnknownEscape(src[i + 1]))
            else ScanString(src[i + 2..]).Prepend(Unescape(src[i + 1]).value, 2)
  {
    hide Unescape;
    var s := src[i..];
    assert s[1..] == src[i + 1..];
    if i + 1 < |src| { assert s[2..] == src[i + 2..] && s[1] == src[i + 1]; }
  }

  /** The scan of a string whose first `n` characters gave the content `s`. */
  ghost function Prefixed(s: string, n: nat, rest: StringScan): StringScan {
    match rest
    case Closed(content, len) => Closed(s + content, n + len)
    case Broken(error) => Broken(error)
  }

  lemma PrefixedOn(s: string, n: nat, c: char, k: nat, rest: StringScan)
    ensures Prefixed(s, n, rest.Prepend(c, k)) == Prefixed(s + [c], n + k, rest)
  {
    if rest.Closed? { assert s + ([c] + rest.content) == s + [c] + rest.content; }
  }

  /** The maximal word at `start`; it never crosses a line break. */
  method LexWord(src: string, start: nat, line: nat, col0: nat) returns (text: string, i: nat, col: nat)
    requires start < |src| && Span(line, col0) == PosAt(src, start)
    ensures i == start + WordLen(src[start..], false) && i <= |src| && text == src[start..][..i - start]
    ensures Span(line, col) == PosAt(src, i)
  {
    text, i, col := "", start, col0;
    while i < |src|
      invariant start <= i <= |src| && text == src[start..i] && Span(line, col) == PosAt(src, i)
      invariant WordLen(src[start..], false) == i - start + WordLen(src[i..], i > start)
    {
      var c := src[i];
      PosNext(src, i);
      assert src[i..][1..] == src[i + 1..];
      assert src[start..i + 1] == src[start..i] + [c];
      if c == '|' && text != "" && i + 1 < |src| && src[i + 1] == '>' {
        text, i, col := text + "|", i + 1, col + 1;
      } else {
        if IsWhitespace(c) || IsDelimiter(c) { break; }
        text, i, col := text + [c], i + 1, col + 1;
      }
    }
    assert src[start..][..i - start] == src[start..i];
  }

  /** To the end of the line; the column is left where it was. */
  method SkipComment(src: string, start: nat) returns (i: nat)
    requires start <= |src|
    ensures i == start + LineLen(src[start..]) && i <= |src| && (i < |src| ==> src[i] == '\n')
    ensures PosAt(src, i).line == PosAt(src, start).line
  {
    i := start;
    while i < |src| && src[i] != '\n'
      invariant start <= i <= |src| && LineLen(src[start..]) == i - start + LineLen(src[i..])
      invariant PosAt(src, i).line == PosAt(src, start).line
    {
      PosNext(src, i);
      assert src[i..][1..] == src[i + 1..];
      i := i + 1;
    }
  }

  /** A word, and what it turns out to be: the `~[` sigil, a comment to the end of its line, a literal, or
      a word. */
  method LexWordToken(src: string, start: nat, line: nat, col0: nat) returns (step: Step, i: nat, col: nat)
    requires start < |src| && Span(line, col0) == PosAt(src, start)
    requires src[start] != '"' && !IsWhitespace(src[start]) && !IsDelimiter(src[start])
    ensures step == Scan(src[start..])
    ensures !step.Fail? ==> i == start + step.n && i <= |src| && line == PosAt(src, i).line
    ensures !step.Fail? && i < |src| && src[i] != '\n' ==> col == PosAt(src, i).col
  {
    hide *;
    ghost var rest := src[start..];
    assert rest[0] == src[start];
    ScanIs(rest);
    var text;
    text, i, col := LexWord(src, start, line, col0);
    assert i < |src| ==> rest[i - start] == src[i];
    assert rest[i - start..] == src[i..];
    WordScanIs(rest, i - start, text);
    if text == "~" && i < |src| && src[i] == '[' {
      PosNext(src, i);
      return Emit(TildeLBracket, i - start + 1), i + 1, col + 1;
    }
    if text == "\\" {
      i := SkipComment(src, i);
      return Skip(i - start), i, col;
    }
    WordStepIs(text);
    if IsIntLiteral(text) {
      var n := IntValue(text);
      if !InI64(n) { return Fail(IntOutOfRange(text)), i, col; }
      step := Emit(Int(n), |text|);
    } else if IsFloatLiteral(text) {
      step := Emit(Float(text), |text|);
    } else {
      step := Emit(Word(text), |text|);
    }
  }

  method Lex(src: string) returns (r: Result<seq<(Token, Span)>, (LexError, Span)>)
    ensures r == LexAll(src)
  {
    hide *;
    var tokens: seq<(Token, Span)> := [];
    var i, line, col := 0, 1, 1;
    ghost var done: seq<(Token, nat)> := [];
    Beginning(src);
    while i < |src|
      invariant i <= |src| && line == PosAt(src, i).line
      invariant i < |src| && src[i] != '\n' ==> col == PosAt(src, i).col
      invariant Inside(src, done) && tokens == Place(src, done)
      invariant LexFrom(src) == After(done, i, LexFrom(src[i..]))
    {
      var c, start := src[i], Span(line, col);
      ghost var rest := src[i..];
      StepOn(src, done, i);
      ScanIs(rest);
      PosNext(src, i);
      Positions(src, i, line, col);
      ghost var step := Scan(rest);
      Taken(src, done, i, step);
      if IsWhitespace(c) {
        i := i + 1;
        if c == '\n' { line, col := line + 1, 1; } else { col := col + 1; }
      } else if IsDelimiter(c) {
        tokens := tokens + [(DelimiterToken(c), start)];
        done := done + [(DelimiterToken(c), i)];
        i, col := i + 1, col + 1;
      } else if c == '"' {
        assert rest[1..] == src[i + 1..];
        var content, next;
        content, next, line, col := LexString(src, i, line, col);
        if content.Err? { return Err((content.error, start)); }
        tokens := tokens + [(Str(content.value), start)];
        done := done + [(Str(content.value), i)];
        i := next;
      } else {
        var word, next;
        word, next, col := LexWordToken(src, i, line, col);
        match word {
          case Skip(_) =>
          case Emit(token, _) =>
            tokens := tokens + [(token, start)];
            done := done + [(token, i)];
          case Fail(error) => return Err((error, start));
        }
        i := next;
      }
    }
    Ending(src, done);
    return Ok(tokens);
  }

  /** The cases of one step, by the first character. */
  lemma ScanIs(s: string)
    requires s != ""
    ensures IsWhitespace(s[0]) ==> Scan(s) == Skip(1)
    ensures !IsWhitespace(s[0]) && IsDelimiter(s[0]) ==> Scan(s) == Emit(DelimiterToken(s[0]), 1)
    ensures !IsWhitespace(s[0]) && !IsDelimiter(s[0]) && s[0] == '"' ==>
              Scan(s) == match ScanString(s[1..])
                         case Closed(content, len) => Emit(Str(content), 1 + len)
                         case Broken(error) => Fail(error)
    ensures !IsWhitespace(s[0]) && !IsDelimiter(s[0]) && s[0] != '"' ==>
              1 <= WordLen(s, false) <= |s| && Scan(s) == WordScan(s, WordLen(s, false))
  {
    hide WordScan, ScanString, IsWhitespace, IsDelimiter, DelimiterToken;
  }

  lemma WordScanIs(s: string, n: nat, text: string)
    requires 1 <= n <= |s| && text == s[..n]
    ensures WordScan(s, n) ==
              if text == "~" && n < |s| && s[n] == '[' then Emit(TildeLBracket, n + 1)
              else if text == "\\" then Skip(n + LineLen(s[n..]))
              else WordStep(text)
  {
    hide WordStep, LineLen;
  }

  lemma WordStepIs(text: string)
    ensures WordStep(text) ==
            if IsIntLiteral(text) then
              if InI64(IntValue(text)) then Emit(Int(IntValue(text)), |text|) else Fail(IntOutOfRange(text))
            else if IsFloatLiteral(text) then Emit(Float(text), |text|)
            else Emit(Word(text), |text|)
  {
  }

  /** What `step` does to the invariant of the loop. */
  lemma Taken(src: string, done: seq<(Token, nat)>, i: nat, step: Step)
    requires i < |src| && Inside(src, done) && Continues(src, done, i, step)
    ensures step.Skip? ==> LexFrom(src) == After(done, i + step.n, LexFrom(src[i + step.n..]))
    ensures step.Emit? ==>
              && LexFrom(src) == After(done + [(step.token, i)], i + step.n, LexFrom(src[i + step.n..]))
              && Inside(src, done + [(step.token, i)])
              && Place(src, done + [(step.token, i)]) == Place(src, done) + [(step.token, PosAt(src, i))]
    ensures step.Fail? ==> LexAll(src) == Err((step.error, PosAt(src, i)))
  {
    hide LexFrom, After, PosAt;
  }

  lemma Positions(src: string, i: nat, line: nat, col: nat)
    requires i < |src| && line == PosAt(src, i).line && (src[i] != '\n' ==> col == PosAt(src, i).col)
    ensures src[i] != '\n' ==> PosAt(src, i) == Span(line, col)
    ensures src[i] == '\n' ==> IsWhitespace(src[i])
  {
  }

  lemma Beginning(src: string)
    ensures LexFrom(src) == After([], 0, LexFrom(src[0..])) && PosAt(src, 0) == Span(1, 1)
    ensures Inside(src, []) && Place(src, []) == []
  {
    hide Scan, LexFrom;
    assert src[0..] == src;
    if LexFrom(src).Ok? {
      var ts := LexFrom(src).value;
      assert [] + Shift(ts, 0) == ts;
    }
  }

  lemma Ending(src: string, done: seq<(Token, nat)>)
    requires LexFrom(src) == After(done, |src|, LexFrom(src[|src|..])) && Inside(src, done)
    ensures LexAll(src) == Ok(Place(src, done))
  {
    hide Scan;
    assert src[|src|..] == [];
    assert LexFrom(src[|src|..]) == Ok([]);
    assert done + Shift([], |src|) == done;
  }
}
