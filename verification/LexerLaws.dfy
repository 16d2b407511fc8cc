/** What lexing promises: printing is inverted, line breaks compose, every token printed is one it can emit. */
module LexerLaws {
  import opened Types
  import opened Numerals
  import opened Lexer
  import opened Spellings

  // ---------------------------------------------------------------- well-formed tokens

  /** A delimiter inside a word can only be a `|` with `>` behind it. */
  predicate Glued(w: string, i: nat)
    requires i < |w|
  {
    Delimits(w[i]) ==> w[i] == '|' && i + 1 < |w| && w[i + 1] == '>'
  }

  predicate WordOk(w: string) {
    && w != "" && w[0] != '"' && !Delimits(w[0])
    && (forall i :: 0 <= i < |w| ==> !Blank(w[i]) && Glued(w, i))
    && w != "\\" && !IsIntLiteral(w) && !IsFloatLiteral(w)
  }

  /** The tokens the scanner can emit. */
  predicate WellFormed(t: Token) {
    match t
    case Int(n) => Fits64(n)
    case Float(spelling) => IsFloatLiteral(spelling)
    case Word(text) => WordOk(text)
    case _ => true
  }

  /** The tokens separated by single spaces. */
  function Print(ts: seq<Token>): string
    decreases |ts|, 0
  {
    if ts == [] then "" else Show(ts[0]) + Tail(ts[1..])
  }

  function Tail(ts: seq<Token>): string
    decreases |ts|, 1
  {
    if ts == [] then "" else " " + Print(ts)
  }

  // ---------------------------------------------------------------- what follows a token does not matter

  /** Text that ends whatever precedes it: nothing, or whitespace and more. */
  predicate Ends(rest: string) { rest == "" || IsWhitespace(rest[0]) }

  lemma {:induction false} WordLenLocal(s: string, rest: string, begun: bool)
    requires Ends(rest)
    ensures WordLen(s + rest, begun) == WordLen(s, begun)
  {
    var all := s + rest;
    if s != [] {
      assert all[1..] == s[1..] + rest;
      WordLenLocal(s[1..], rest, true);
    } else {
      assert all == rest;
    }
  }

  lemma {:induction false} ScanStringLocal(s: string, rest: string)
    requires ScanString(s).Closed?
    ensures ScanString(s + rest) == ScanString(s)
  {
    var all := s + rest;
    if s[0] != '"' {
      if s[0] == '\\' {
        assert all[2..] == s[2..] + rest;
        ScanStringLocal(s[2..], rest);
      } else {
        assert all[1..] == s[1..] + rest;
        ScanStringLocal(s[1..], rest);
      }
    }
  }

  lemma {:induction false} LineLenLocal(s: string, rest: string)
    requires rest == "" || rest[0] == '\n'
    ensures LineLen(s + rest) == LineLen(s)
  {
    var all := s + rest;
    if s != [] {
      assert all[1..] == s[1..] + rest;
      LineLenLocal(s[1..], rest);
    } else {
      assert all == rest;
    }
  }

  /** One step sees the same thing with a line break appended. */
  lemma ScanLocal(s: string, rest: string)
    requires s != "" && (rest == "" || rest[0] == '\n') && !Scan(s).Fail?
    ensures Scan(s + rest) == Scan(s)
  {
    hide WordStep;
    var all := s + rest;
    if s[0] == '"' {
      assert all[1..] == s[1..] + rest;
      ScanStringLocal(s[1..], rest);
    } else if !IsWhitespace(s[0]) && !IsDelimiter(s[0]) {
      hide IsWhitespace, IsDelimiter, ScanString;
      WordLenLocal(s, rest, false);
      var n := WordLen(s, false);
      assert all[..n] == s[..n];
      assert all[n..] == s[n..] + rest;
      LineLenLocal(s[n..], rest);
    }
  }

  // ---------------------------------------------------------------- composing at a line break

  lemma ScanBreak(s: string)
    requires s != "" && IsWhitespace(s[0])
    ensures Scan(s) == Skip(1)
  {
  }

  lemma {:induction false} LexFromLine(a: string, b: string)
    requires LexFrom(a).Ok?
    ensures LexFrom(a + ("\n" + b)) == After(LexFrom(a).value, |a| + 1, LexFrom(b))
  {
    hide Scan;
    var rest := "\n" + b;
    if a == [] {
      assert a + rest == rest && rest[1..] == b;
      ScanBreak(rest);
    } else {
      ScanLocal(a, rest);
      var step := Scan(a);
      var n := step.n;
      assert (a + rest)[n..] == a[n..] + rest;
      LexFromLine(a[n..], b);
      var before := if step.Emit? then [(step.token, 0)] else [];
      AfterAfter(before, n, LexFrom(a[n..]).value, |a[n..]| + 1, LexFrom(b));
    }
  }

  function Down(at: Span, lines: nat): Span { Span(at.line + lines, at.col) }

  /** `first`, then a text lexed on its own, moved down by `lines`. */
  function Below(first: seq<(Token, Span)>, lines: nat, second: Result<seq<(Token, Span)>, (LexError, Span)>):
    Result<seq<(Token, Span)>, (LexError, Span)>
  {
    match second
    case Ok(ts) => Ok(first + seq(|ts|, i requires 0 <= i < |ts| => (ts[i].0, Down(ts[i].1, lines))))
    case Err(e) => Err((e.0, Down(e.1, lines)))
  }

  lemma {:induction false} CountsAfterBreak(a: string, s: string)
    ensures Newlines(a + "\n" + s) == Newlines(a) + 1 + Newlines(s) && SinceNewline(a + "\n" + s) == SinceNewline(s)
  {
    var all := a + "\n" + s;
    if s == [] {
      assert all == a + "\n" && all[..|all| - 1] == a;
    } else {
      assert all[..|all| - 1] == a + "\n" + s[..|s| - 1];
      CountsAfterBreak(a, s[..|s| - 1]);
    }
  }

  lemma PosAfterBreak(a: string, b: string, k: nat)
    requires k <= |b|
    ensures PosAt(a + "\n" + b, |a| + 1 + k) == Down(PosAt(b, k), 1 + Newlines(a))
  {
    hide Newlines, SinceNewline;
    CountsAfterBreak(a, b[..k]);
    var front := a + "\n";
    assert (front + b)[..|front| + k] == front + b[..k];
  }

  lemma PosBefore(a: string, rest: string, k: nat)
    requires k <= |a|
    ensures PosAt(a + rest, k) == PosAt(a, k)
  {
    assert (a + rest)[..k] == a[..k];
  }

  /** Lexing composes at a line break: when `a` lexes, `a`, a line break and `b` together lex to `a`'s tokens
      and then `b`'s, so many lines down, and fail exactly when `b` does, at the corresponding place. */
  lemma {:induction false} LinesCompose(a: string, b: string)
    requires LexAll(a).Ok?
    ensures LexAll(a + "\n" + b) == Below(LexAll(a).value, 1 + Newlines(a), LexAll(b))
  {
    hide PosAt, LexFrom, Newlines;
    var all := a + "\n" + b;
    assert all == a + ("\n" + b);
    LexFromLine(a, b);
    var before := LexFrom(a).value;
    match LexFrom(b)
    case Err(e) => PosAfterBreak(a, b, e.1);
    case Ok(ts) =>
      var whole := before + Shift(ts, |a| + 1);
      assert LexFrom(all) == Ok(whole);
      var expected := Below(LexAll(a).value, 1 + Newlines(a), LexAll(b)).value;
      forall i | 0 <= i < |whole| ensures Place(all, whole)[i] == expected[i] {
        if i < |before| {
          PosBefore(a, "\n" + b, before[i].1);
        } else {
          PosAfterBreak(a, b, ts[i - |before|].1);
        }
      }
      assert Place(all, whole) == expected;
  }

  // ---------------------------------------------------------------- round trip

  lemma ScanEscapeChar(c: char, tail: string)
    ensures ScanString(EscapeChar(c) + tail) == ScanString(tail).Prepend(c, |EscapeChar(c)|)
  {
    var e := EscapeChar(c);
    var s := e + tail;
    assert |e| == 1 ==> e == [c] && c != '"' && c != '\\';
    assert |e| == 2 ==> e[0] == '\\' && Unescape(e[1]) == Some(c);
    hide EscapeChar, Unescape;
    assert s[|e|..] == tail;
    assert s[0] == e[0];
    if |e| == 2 { assert s[1] == e[1]; }
  }

  lemma {:induction false} ScanEscaped(s: string, rest: string)
    ensures ScanString(Escape(s) + ("\"" + rest)) == Closed(s, |Escape(s)| + 1)
  {
    var q := "\"" + rest;
    if s == [] {
      assert Escape(s) + q == q;
    } else {
      hide Unescape, EscapeChar;
      assert Escape(s) + q == EscapeChar(s[0]) + (Escape(s[1..]) + q);
      ScanEscapeChar(s[0], Escape(s[1..]) + q);
      ScanEscaped(s[1..], rest);
      assert s == [s[0]] + s[1..];
    }
  }

  /** The same in the scanner's own tests. */
  predicate Joined(w: string, i: nat)
    requires i < |w|
  {
    !IsWhitespace(w[i]) && (IsDelimiter(w[i]) ==> w[i] == '|' && i + 1 < |w| && w[i + 1] == '>')
  }

  lemma JoinedIs(w: string, i: nat)
    requires i < |w|
    ensures Joined(w, i) <==> !Blank(w[i]) && Glued(w, i)
  {
    WhitespaceIsBlank(w[i]);
    DelimitersPrint(w[i]);
  }

  lemma {:induction false} WordLenWhole(w: string, rest: string, begun: bool)
    requires Ends(rest)
    requires forall i :: 0 <= i < |w| ==> Joined(w, i) && (IsDelimiter(w[i]) ==> i > 0 || begun)
    ensures WordLen(w + rest, begun) == |w|
  {
    var all := w + rest;
    if w == [] {
      assert all == rest;
    } else {
      assert all[1..] == w[1..] + rest;
      assert Joined(w, 0);
      forall i | 0 <= i < |w[1..]| ensures Joined(w[1..], i) { assert Joined(w, i + 1); }
      WordLenWhole(w[1..], rest, true);
    }
  }

  /** A word without delimiters or quotes that follows its own step. */
  lemma ScanWord(w: string, rest: string)
    requires w != "" && w[0] != '"' && !IsDelimiter(w[0]) && w != "\\" && Ends(rest)
    requires forall i :: 0 <= i < |w| ==> Joined(w, i)
    ensures Scan(w + rest) == WordStep(w)
  {
    assert Joined(w, 0);
    WordLenWhole(w, rest, false);
    assert (w + rest)[..|w|] == w;
  }

  /** A well-formed word is read as itself. */
  lemma ScanWordOk(w: string, rest: string)
    requires WordOk(w) && Ends(rest)
    ensures Scan(w + rest) == Emit(Word(w), |w|)
  {
    DelimitersPrint(w[0]);
    forall i | 0 <= i < |w| ensures Joined(w, i) { JoinedIs(w, i); }
    hide Joined, Glued, IsDelimiter, Delimits, Blank, Scan;
    ScanWord(w, rest);
  }

  predicate LiteralChar(c: char) { IsDigit(c) || c in {'-', '.', 'e', 'E', '+'} }

  predicate AllLiteral(s: string) { forall i :: 0 <= i < |s| ==> LiteralChar(s[i]) }

  lemma AllLiteralConcat(a: string, b: string)
    ensures AllLiteral(a) && AllLiteral(b) ==> AllLiteral(a + b)
  {
  }

  lemma LiteralChars(text: string)
    requires IsIntLiteral(text) || IsFloatLiteral(text)
    ensures text != "" && AllLiteral(text)
  {
    if IsFloatLiteral(text) { FloatChars(text); }
  }

  lemma FloatChars(text: string)
    requires IsFloatLiteral(text)
    ensures text != "" && AllLiteral(text)
  {
    FloatHasParts(text);
    var sign, whole, frac, tail :| FloatParts(text, sign, whole, frac, tail);
    TailChars(tail);
    assert AllLiteral(sign) && AllLiteral(whole) && AllLiteral(frac) && AllLiteral(".") && AllLiteral(tail);
    hide *;
    AllLiteralConcat(frac, tail);
    AllLiteralConcat(whole, ".");
    AllLiteralConcat(whole + ".", frac + tail);
    AllLiteralConcat(sign, whole + "." + (frac + tail));
    assert AllLiteral(text);
  }

  lemma TailChars(tail: string)
    requires IsExponent(tail)
    ensures AllLiteral(tail)
  {
    if tail != "" {
      var e, sign, digits :| ExponentParts(tail, e, sign, digits);
      assert AllLiteral([e]) && AllLiteral(sign) && AllLiteral(digits);
    }
  }

  lemma ShowIntReads(n: int)
    ensures IsIntLiteral(ShowInt(n)) && IntValue(ShowInt(n)) == n
  {
    var d: nat := if n < 0 then -n else n;
    ValueOfDecimal(d);
    assert IsDigit(Decimal(d)[0]);
    if n < 0 { assert ("-" + Decimal(d))[1..] == Decimal(d); }
  }

  lemma FloatIsNotInt(text: string)
    requires IsFloatLiteral(text)
    ensures !IsIntLiteral(text)
  {
    var body := StripMinus(text);
    var dot := Find(body, {'.'});
    assert !IsDigit(body[dot]);
  }

  lemma ScanLiteral(text: string, rest: string)
    requires (IsIntLiteral(text) || IsFloatLiteral(text)) && Ends(rest)
    ensures text != "" && Scan(text + rest) == WordStep(text)
  {
    LiteralChars(text);
    LiteralJoined(text);
    hide *;
    ScanWord(text, rest);
  }

  lemma LiteralJoined(text: string)
    requires text != "" && AllLiteral(text)
    ensures text[0] != '"' && !IsDelimiter(text[0]) && text != "\\"
    ensures forall i :: 0 <= i < |text| ==> Joined(text, i)
  {
    assert LiteralChar(text[0]);
  }

  lemma ScanTilde(rest: string)
    ensures Scan("~[" + rest) == Emit(TildeLBracket, 2)
  {
    var all := "~[" + rest;
    assert all[1..][0] == '[';
    assert WordLen(all[1..], true) == 0;
    assert WordLen(all, false) == 1;
    assert all[..1] == "~";
  }

  lemma ScanStr(content: string, rest: string)
    ensures Scan(Show(Str(content)) + rest) == Emit(Str(content), |Show(Str(content))|)
  {
    hide Escape, ScanString;
    ScanEscaped(content, rest);
    assert (Show(Str(content)) + rest)[1..] == Escape(content) + ("\"" + rest);
  }

  lemma ScanDelimiter(t: Token, rest: string)
    requires t.Semicolon? || t.LParen? || t.RParen? || t.Pipe? || t.LBracket? || t.RBracket?
    ensures Scan(Show(t) + rest) == Emit(t, 1) && |Show(t)| == 1
  {
    hide WordLen, ScanString, WordStep, IsWhitespace;
    assert (Show(t) + rest)[0] == Show(t)[0];
    assert !IsWhitespace(Show(t)[0]) by { DelimiterIsNotWhitespace(Show(t)[0]); }
  }

  lemma DelimiterIsNotWhitespace(c: char)
    requires IsDelimiter(c)
    ensures !IsWhitespace(c)
  {
  }

  lemma ScanShow(t: Token, rest: string)
    requires WellFormed(t) && Ends(rest)
    ensures Show(t) != "" && Scan(Show(t) + rest) == Emit(t, |Show(t)|)
  {
    hide Scan, IsIntLiteral, IsFloatLiteral, IsDelimiter, IsWhitespace, InI64, Fits64, WordOk;
    match t
    case Int(n) =>
      ShowIntReads(n);
      RangeIs64Bits(n);
      ScanLiteral(ShowInt(n), rest);
    case Float(spelling) =>
      FloatIsNotInt(spelling);
      ScanLiteral(spelling, rest);
    case Word(text) => ScanWordOk(text, rest);
    case Str(content) => ScanStr(content, rest);
    case TildeLBracket => ScanTilde(rest);
    case _ => ScanDelimiter(t, rest);
  }

  lemma {:induction false} PrintLexes(ts: seq<Token>)
    requires forall i :: 0 <= i < |ts| ==> WellFormed(ts[i])
    ensures LexFrom(Print(ts)).Ok? && Tokens(LexFrom(Print(ts)).value) == ts
  {
    hide Scan, WellFormed, Show, LexFrom;
    if ts != [] {
      var head, tail := Show(ts[0]), Tail(ts[1..]);
      assert Ends(tail) && Print(ts) == head + tail;
      ScanShow(ts[0], tail);
      PrintLexes(ts[1..]);
      TailLexes(ts[1..]);
      hide Print, Tail, Ends;
      LexesFirst(ts[0], head, tail);
      assert [ts[0]] + ts[1..] == ts;
    } else {
      LexesNothing();
    }
  }

  lemma LexesNothing()
    ensures LexFrom(Print([])) == Ok([])
  {
  }

  lemma LexesFirst(t: Token, head: string, tail: string)
    requires head != "" && Scan(head + tail) == Emit(t, |head|) && LexFrom(tail).Ok?
    ensures LexFrom(head + tail).Ok?
    ensures Tokens(LexFrom(head + tail).value) == [t] + Tokens(LexFrom(tail).value)
  {
    hide Scan, LexFrom;
    assert (head + tail)[|head|..] == tail;
    LexStep(head + tail);
  }

  lemma TailLexes(ts: seq<Token>)
    requires LexFrom(Print(ts)).Ok?
    ensures LexFrom(Tail(ts)).Ok? && Tokens(LexFrom(Tail(ts)).value) == Tokens(LexFrom(Print(ts)).value)
  {
    hide Scan, Show;
    if ts != [] {
      assert Tail(ts)[1..] == Print(ts);
      ScanBreak(Tail(ts));
    } else {
      assert Tail(ts) == Print(ts);
    }
  }

  lemma {:induction false} WordLenOk(s: string, begun: bool, i: nat)
    requires i < WordLen(s, begun)
    ensures !IsWhitespace(s[i])
    ensures IsDelimiter(s[i]) ==> s[i] == '|' && i + 1 < WordLen(s, begun) && s[i + 1] == '>' && (i > 0 || begun)
  {
    if i > 0 {
      WordLenOk(s[1..], true, i - 1);
    } else if s[0] == '|' {
      assert WordLen(s[1..], true) > 0;
    }
  }

  lemma MaximalWordOk(s: string)
    requires s != "" && s[0] != '"' && !IsDelimiter(s[0]) && !IsWhitespace(s[0])
    ensures var w := s[..WordLen(s, false)];
            w != "" && w[0] != '"' && !Delimits(w[0]) && forall i :: 0 <= i < |w| ==> !Blank(w[i]) && Glued(w, i)
  {
    var n := WordLen(s, false);
    assert n > 0;
    var w := s[..n];
    assert w[0] == s[0];
    DelimitersPrint(w[0]);
    hide IsDelimiter, IsWhitespace, WordLen, Delimits;
    forall i | 0 <= i < n ensures !Blank(w[i]) && Glued(w, i) {
      WordLenOk(s, false, i);
      assert w[i] == s[i];
      if IsDelimiter(w[i]) { assert w[i + 1] == s[i + 1]; }
      JoinedIs(w, i);
    }
  }

  /** Whatever the text, the front token is one that printing brings back. */
  lemma ScanWellFormed(s: string)
    requires s != "" && Scan(s).Emit?
    ensures WellFormed(Scan(s).token)
  {
    hide IsIntLiteral, IsFloatLiteral, IsDelimiter, IsWhitespace, WordLen, ScanString, InI64, Fits64, Delimits, Blank;
    if !IsWhitespace(s[0]) && !IsDelimiter(s[0]) && s[0] != '"' {
      MaximalWordOk(s);
      if Scan(s).token.Int? { RangeIs64Bits(Scan(s).token.n); }
    }
  }

  lemma {:induction false} LexWellFormed(s: string)
    requires LexFrom(s).Ok?
    ensures forall i :: 0 <= i < |LexFrom(s).value| ==> WellFormed(LexFrom(s).value[i].0)
  {
    if s != [] {
      var step := Scan(s);
      LexWellFormed(s[step.n..]);
      if step.Emit? { ScanWellFormed(s); }
    }
  }

  predicate AllWellFormed(ts: seq<Token>) { forall i :: 0 <= i < |ts| ==> WellFormed(ts[i]) }

  /** Lexing the print of `ts` gives `ts` back. */
  predicate LexesBack(ts: seq<Token>) { LexFrom(Print(ts)).Ok? && Tokens(LexFrom(Print(ts)).value) == ts }

  /** Lexing inverts printing, for exactly the lists of tokens the scanner can emit. */
  lemma {:induction false} RoundTrip(ts: seq<Token>)
    ensures LexesBack(ts) <==> AllWellFormed(ts)
  {
    if AllWellFormed(ts) {
      PrintLexes(ts);
    } else if LexesBack(ts) {
      LexWellFormed(Print(ts));
    }
  }

  /** So printing what was lexed and lexing again changes no token, whatever the original layout. */
  lemma {:induction false} Relex(s: string)
    requires LexFrom(s).Ok?
    ensures LexesBack(Tokens(LexFrom(s).value))
  {
    LexWellFormed(s);
    PrintLexes(Tokens(LexFrom(s).value));
  }

  // ---------------------------------------------------------------- what the texts of a program lex to

  /** A plain word: printable, no delimiter, no opening quote, not a comment sign and not the spelling of a number,
      is one token whatever it says. */
  lemma PlainWord(w: string)
    requires w != "" && w[0] != '"' && w != "\\"
    requires forall i :: 0 <= i < |w| ==> '!' <= w[i] <= '~' && w[i] !in ";()|[]"
    requires !exists sign, digits :: SpellsInt(w, sign, digits)
    requires !exists sign, whole, frac, tail :: FloatParts(w, sign, whole, frac, tail)
    ensures LexFrom(w) == Ok([(Word(w), 0)])
  {
    IntGrammar(w);
    FloatGrammar(w);
    hide SpellsInt, FloatParts, IsIntLiteral, IsFloatLiteral;
    assert WordOk(w) by {
      forall i | 0 <= i < |w| ensures !Blank(w[i]) && !Delimits(w[i]) {
        PrintableIsNotBlank(w[i]);
        PlainIsNoDelimiter(w[i]);
      }
    }
    hide WordOk, Scan;
    ScanWordOk(w, "");
    LexOne(w, Word(w));
  }

  lemma PlainIsNoDelimiter(c: char)
    requires c !in ";()|[]"
    ensures !Delimits(c)
  {
    forall t | t in DELIMITERS ensures Show(t) != [c] { assert Show(t)[0] in ";()|[]"; }
  }

  lemma LexOne(w: string, t: Token)
    requires w != "" && Scan(w + "") == Emit(t, |w|)
    ensures LexFrom(w) == Ok([(t, 0)])
  {
    assert w + "" == w && w[|w|..] == "";
    assert LexFrom("") == Ok([]);
    hide Scan, LexFrom;
    LexStep(w);
    assert [(t, 0)] + Shift([], |w|) == [(t, 0)];
  }

  /** A spelled integer is one token when it fits in 64 bits, and an error at its start when it does not. */
  lemma IntegersInRange(n: int)
    ensures LexFrom(ShowInt(n)) == if Fits64(n) then Ok([(Int(n), 0)]) else Err((IntOutOfRange(ShowInt(n)), 0))
  {
    hide Fits64, InI64, Scan;
    ShowIntReads(n);
    RangeIs64Bits(n);
    ScanLiteral(ShowInt(n), "");
    var text := ShowInt(n);
    assert text + "" == text;
    if Fits64(n) { LexOne(text, Int(n)); } else { LexStep(text); }
  }

  /** A comment is a lone backslash, a blank and anything up to the end of the line: nothing is left of it. */
  lemma CommentsVanish(blank: char, text: string, rest: string)
    requires Blank(blank) && blank != '\n' && '\n' !in text
    ensures LexFrom("\\" + [blank] + text + "\n" + rest) ==
              After([], |text| + 3, LexFrom(rest))
  {
    hide Scan, LexFrom;
    var comment, line := "\\" + ([blank] + text), "\n" + rest;
    assert "\\" + [blank] + text + "\n" + rest == comment + line;
    CommentScans(blank, text);
    ScanLocal(comment, line);
    assert (comment + line)[|comment|..] == line && line[1..] == rest;
    LexStep(comment + line);
    ScanBreak(line);
    LexStep(line);
    AfterAfter([], |comment|, [], 1, LexFrom(rest));
    assert [] + Shift([], |comment|) == [];
  }

  lemma CommentScans(blank: char, text: string)
    requires Blank(blank) && blank != '\n' && '\n' !in text
    ensures Scan("\\" + ([blank] + text)) == Skip(|text| + 2)
  {
    var comment := "\\" + ([blank] + text);
    WhitespaceIsBlank(blank);
    assert comment[0] == '\\' && comment[1] == blank && comment[1..] == [blank] + text;
    assert WordLen(comment[1..], true) == 0;
    assert WordLen(comment, false) == 1 && comment[..1] == "\\";
    LineLenAll(comment[1..]);
  }

  lemma {:induction false} LineLenAll(s: string)
    requires '\n' !in s
    ensures LineLen(s) == |s|
  {
    if s != "" { LineLenAll(s[1..]); }
  }

  /** Any blank separates two tokens. */
  lemma BlanksSeparate(a: Token, blank: char, b: Token)
    requires WellFormed(a) && Blank(blank) && WellFormed(b)
    ensures var r := LexFrom(Show(a) + [blank] + Show(b)); r.Ok? && Tokens(r.value) == [a, b]
  {
    var tail := [blank] + Show(b);
    WhitespaceIsBlank(blank);
    hide Scan, WellFormed, Show, LexFrom, Blank, IsWhitespace;
    ScanShow(a, tail);
    ScanShow(b, "");
    assert Show(b) + "" == Show(b) && tail[1..] == Show(b);
    LexOne(Show(b), b);
    ScanBreak(tail);
    LexStep(tail);
    assert Show(a) + [blank] + Show(b) == Show(a) + tail;
    LexesFirst(a, Show(a), tail);
    assert Tokens(LexFrom(tail).value) == [b];
  }

  lemma ShowLexes(t: Token)
    requires WellFormed(t)
    ensures LexFrom(Show(t)) == Ok([(t, 0)])
  {
    hide WellFormed, Show, Scan, LexFrom;
    ScanShow(t, "");
    LexOne(Show(t), t);
  }

  /** The signs that are tokens on their own. */
  lemma KnownSigns()
    ensures LexFrom(";") == Ok([(Semicolon, 0)]) && LexFrom("|") == Ok([(Pipe, 0)])
    ensures LexFrom("(") == Ok([(LParen, 0)]) && LexFrom(")") == Ok([(RParen, 0)])
    ensures LexFrom("[") == Ok([(LBracket, 0)]) && LexFrom("]") == Ok([(RBracket, 0)])
    ensures LexFrom("~[") == Ok([(TildeLBracket, 0)])
  {
    hide LexFrom;
    ShowLexes(Semicolon);
    ShowLexes(Pipe);
    ShowLexes(LParen);
    ShowLexes(RParen);
    ShowLexes(LBracket);
    ShowLexes(RBracket);
    ShowLexes(TildeLBracket);
  }

  /** What each of the five escapes stands for. */
  lemma KnownEscapes()
    ensures LexFrom("\"\\n\"") == Ok([(Str("\n"), 0)]) && LexFrom("\"\\t\"") == Ok([(Str("\t"), 0)])
    ensures LexFrom("\"\\\\\"") == Ok([(Str("\\"), 0)]) && LexFrom("\"\\\"\"") == Ok([(Str("\""), 0)])
    ensures LexFrom("\"\\0\"") == Ok([(Str("\0"), 0)])
  {
    hide LexFrom;
    EscapeLexes('\n', "\\n", "\"\\n\"");
    EscapeLexes('\t', "\\t", "\"\\t\"");
    EscapeLexes('\\', "\\\\", "\"\\\\\"");
    EscapeLexes('"', "\\\"", "\"\\\"\"");
    EscapeLexes('\0', "\\0", "\"\\0\"");
    assert "\n" == ['\n'] && "\t" == ['\t'] && "\\" == ['\\'] && "\"" == ['"'] && "\0" == ['\0'];
  }

  lemma EscapeLexes(c: char, spelled: string, text: string)
    requires EscapeChar(c) == spelled && text == "\"" + spelled + "\""
    ensures LexFrom(text) == Ok([(Str([c]), 0)])
  {
    hide LexFrom, EscapeChar;
    assert Escape([c]) == EscapeChar(c) + Escape([c][1..]) == spelled;
    ShowLexes(Str([c]));
  }

  // ---------------------------------------------------------------- where a token is

  /** With the text before an offset cut behind its last line break, the line counts the breaks and the column the
      characters since, both from one. */
  lemma PositionMeans(src: string, offset: nat, lines: string, line: string)
    requires offset <= |src| && src[..offset] == lines + line
    requires (lines == "" || lines[|lines| - 1] == '\n') && '\n' !in line
    ensures PosAt(src, offset) == Span(1 + multiset(lines)['\n'], 1 + |line|)
  {
    OnOneLine(lines, line);
    NewlinesCount(lines);
  }

  lemma {:induction false} OnOneLine(lines: string, line: string)
    requires (lines == "" || lines[|lines| - 1] == '\n') && '\n' !in line
    ensures Newlines(lines + line) == Newlines(lines) && SinceNewline(lines + line) == |line|
  {
    var all := lines + line;
    if line == "" {
      assert all == lines;
    } else {
      assert all[..|all| - 1] == lines + line[..|line| - 1] && all[|all| - 1] == line[|line| - 1];
      OnOneLine(lines, line[..|line| - 1]);
    }
  }

  lemma {:induction false} NewlinesCount(s: string)
    ensures Newlines(s) == multiset(s)['\n']
  {
    if s != "" {
      NewlinesCount(s[..|s| - 1]);
      assert s == s[..|s| - 1] + [s[|s| - 1]];
    }
  }
}
