/** How tokens are written, told apart from how they are read: the print of a token, the characters that end a
    word, the spellings of integers and strings. Each test of the scanner is met with one of these. */
module Spellings {
  import opened Types
  import opened Numerals
  import opened Lexer

  // ---------------------------------------------------------------- the print of a token

  function EscapeChar(c: char): string {
    match c
    case '\n' => "\\n"
    case '\t' => "\\t"
    case '\\' => "\\\\"
    case '"' => "\\\""
    case '\0' => "\\0"
    case _ => [c]
  }

  function Escape(s: string): string {
    if s == [] then [] else EscapeChar(s[0]) + Escape(s[1..])
  }

  function ShowInt(n: int): string { if n < 0 then "-" + Decimal(-n) else Decimal(n) }

  function Show(t: Token): string {
    match t
    case Semicolon => ";"
    case LParen => "("
    case RParen => ")"
    case Pipe => "|"
    case LBracket => "["
    case RBracket => "]"
    case Int(n) => ShowInt(n)
    case Float(spelling) => spelling
    case Word(text) => text
    case Str(content) => "\"" + Escape(content) + "\""
    case TildeLBracket => "~["
  }

  // ---------------------------------------------------------------- what ends a word

  const DELIMITERS: seq<Token> := [Semicolon, LParen, RParen, Pipe, LBracket, RBracket]

  /** A token that stands for itself is printed as this character. */
  predicate Delimits(c: char) { exists t :: t in DELIMITERS && Show(t) == [c] }

  /** The scanner's delimiters are these characters, each read as the token that prints so. */
  lemma DelimitersPrint(c: char)
    ensures IsDelimiter(c) <==> Delimits(c)
    ensures IsDelimiter(c) ==> DelimiterToken(c) in DELIMITERS && Show(DelimiterToken(c)) == [c]
  {
    if Delimits(c) {
      var t :| t in DELIMITERS && Show(t) == [c];
      assert Show(t)[0] == c;
    }
    if IsDelimiter(c) { assert Show(DelimiterToken(c)) == [c]; }
  }

  /** The code points with Unicode's White_Space property: 25 in all. */
  const WHITE_SPACE: seq<int> := [
    0x9, 0xA, 0xB, 0xC, 0xD, 0x20, 0x85, 0xA0, 0x1680, 0x2000, 0x2001, 0x2002, 0x2003, 0x2004, 0x2005, 0x2006,
    0x2007, 0x2008, 0x2009, 0x200A, 0x2028, 0x2029, 0x202F, 0x205F, 0x3000]

  predicate Blank(c: char) { (c as int) in WHITE_SPACE }

  lemma WhitespaceIsBlank(c: char)
    ensures IsWhitespace(c) <==> Blank(c)
  {
  }

  /** Of the printable characters of ASCII only the space is blank. */
  lemma PrintableIsNotBlank(c: char)
    requires '!' <= c <= '~'
    ensures !Blank(c)
  {
  }

  // ---------------------------------------------------------------- integers

  function Pow2(n: nat): nat { if n == 0 then 1 else 2 * Pow2(n - 1) }

  /** A signed number of 64 bits. */
  predicate Fits64(n: int) {
    var limit: int := Pow2(63);
    -limit <= n < limit
  }

  lemma {:induction false} Pow2Splits(m: nat, n: nat)
    ensures Pow2(m + n) == Pow2(m) * Pow2(n)
  {
    if m > 0 {
      Pow2Splits(m - 1, n);
      assert Pow2(m + n) == 2 * Pow2(m - 1 + n);
    }
  }

  lemma Product(m: nat, n: nat, a: nat, b: nat)
    requires Pow2(m) == a && Pow2(n) == b
    ensures Pow2(m + n) == a * b
  {
    Pow2Splits(m, n);
  }

  lemma RangeIs64Bits(n: int)
    ensures InI64(n) <==> Fits64(n)
  {
    assert Pow2(7) == 128;
    hide Pow2;
    Product(7, 7, 128, 128);
    Product(14, 7, 0x4000, 128);
    Product(21, 21, 0x20_0000, 0x20_0000);
    Product(42, 21, 0x400_0000_0000, 0x20_0000);
  }

  /** An optional minus sign and decimal digits. */
  ghost predicate SpellsInt(text: string, sign: string, digits: string) {
    && text == sign + digits && sign in {"", "-"} && digits != ""
    && forall i :: 0 <= i < |digits| ==> digits[i] in "0123456789"
  }

  lemma DigitsAre(s: string)
    ensures Digits(s) <==> s != "" && forall i :: 0 <= i < |s| ==> s[i] in "0123456789"
  {
    forall c: char ensures IsDigit(c) <==> c in "0123456789" { DigitIs(c); }
  }

  lemma DigitIs(c: char)
    ensures IsDigit(c) <==> c in "0123456789"
  {
    var all := "0123456789";
    if IsDigit(c) { assert all[c as int - '0' as int] == c; }
  }

  lemma IntGrammar(text: string)
    ensures IsIntLiteral(text) <==> exists sign, digits :: SpellsInt(text, sign, digits)
  {
    var sign := if text != "" && text[0] == '-' then "-" else "";
    assert text == sign + StripMinus(text);
    DigitsAre(StripMinus(text));
    if IsIntLiteral(text) { assert SpellsInt(text, sign, StripMinus(text)); }
    if s, digits :| SpellsInt(text, s, digits) {
      assert digits[0] in "0123456789";
      if s == "" { assert text == digits; } else { assert text[1..] == digits; }
    }
  }

  // ---------------------------------------------------------------- strings

  /** The characters that can be written with an escape, and the letter of each. */
  predicate HasEscape(c: char, letter: char) { EscapeChar(c) == ['\\', letter] }

  /** `content` with the marked characters escaped. */
  function Spelling(content: string, marked: seq<bool>): string
    requires |marked| == |content|
  {
    if content == "" then ""
    else (if marked[0] then EscapeChar(content[0]) else [content[0]]) + Spelling(content[1..], marked[1..])
  }

  /** Only characters that have an escape are marked, and quotes and backslashes always are. */
  predicate SpellingOk(content: string, marked: seq<bool>) {
    |marked| == |content| &&
    forall i :: 0 <= i < |content| ==>
      if marked[i] then |EscapeChar(content[i])| == 2 else content[i] != '"' && content[i] != '\\'
  }

  /** What may end the spelled characters of a string: the closing quote, the end of the text, or a backslash
      without a letter that means anything. */
  predicate Stops(tail: string) {
    || tail == "" || tail[0] == '"' || tail == "\\"
    || (tail[0] == '\\' && |tail| > 1 && forall c :: !HasEscape(c, tail[1]))
  }

  function StopScan(tail: string): StringScan
    requires Stops(tail)
  {
    if tail == "" || tail == "\\" then Broken(UnterminatedString)
    else if tail[0] == '"' then Closed("", 1)
    else Broken(UnknownEscape(tail[1]))
  }

  /** `scan` after `n` more characters that stand for `content`. */
  function Following(content: string, n: nat, scan: StringScan): StringScan {
    match scan
    case Closed(rest, len) => Closed(content + rest, n + len)
    case Broken(error) => Broken(error)
  }

  lemma EscapesAre(letter: char)
    ensures Unescape(letter).None? ==> forall c :: !HasEscape(c, letter)
    ensures Unescape(letter).Some? ==> HasEscape(Unescape(letter).value, letter)
    ensures forall c :: HasEscape(c, letter) ==> Unescape(letter) == Some(c)
  {
    forall c | HasEscape(c, letter) ensures Unescape(letter) == Some(c) {
      assert EscapeChar(c)[1] == letter && |EscapeChar(c)| == 2;
    }
    if Unescape(letter).Some? { assert HasEscape(Unescape(letter).value, letter); }
  }

  lemma {:induction false} ScanSpelling(content: string, marked: seq<bool>, tail: string)
    requires SpellingOk(content, marked) && Stops(tail)
    ensures ScanString(Spelling(content, marked) + tail) ==
            Following(content, |Spelling(content, marked)|, StopScan(tail))
  {
    var s := Spelling(content, marked) + tail;
    if content == "" {
      assert s == tail;
      ScanStop(tail);
      assert StopScan(tail).Closed? ==> content + StopScan(tail).content == StopScan(tail).content;
    } else {
      var c, rest := content[0], Spelling(content[1..], marked[1..]);
      var e := if marked[0] then EscapeChar(c) else [c];
      ScanSpelling(content[1..], marked[1..], tail);
      SpelledChar(c, marked[0], rest + tail);
      hide ScanString, EscapeChar, StopScan, Stops;
      assert s == e + (rest + tail);
      assert content == [c] + content[1..];
      assert StopScan(tail).Closed? ==>
               content + StopScan(tail).content == [c] + (content[1..] + StopScan(tail).content);
      assert Spelling(content, marked) == e + rest;
      assert ScanString(s) == ScanString(rest + tail).Prepend(c, |e|);
      assert Following(content[1..], |rest|, StopScan(tail)).Prepend(c, |e|) ==
             Following(content, |e + rest|, StopScan(tail));
    }
  }

  lemma ScanStop(tail: string)
    requires Stops(tail)
    ensures ScanString(tail) == StopScan(tail)
  {
    if tail != "" && tail[0] == '\\' && |tail| > 1 { EscapesAre(tail[1]); }
  }

  lemma SpelledChar(c: char, escaped: bool, rest: string)
    requires if escaped then |EscapeChar(c)| == 2 else c != '"' && c != '\\'
    ensures var e := if escaped then EscapeChar(c) else [c];
            ScanString(e + rest) == ScanString(rest).Prepend(c, |e|)
  {
    var e := if escaped then EscapeChar(c) else [c];
    if escaped {
      assert e[0] == '\\' && e == ['\\', e[1]];
      EscapesAre(e[1]);
    }
    hide EscapeChar, Unescape, HasEscape;
    assert (e + rest)[|e|..] == rest && (e + rest)[0] == e[0];
    if escaped { assert (e + rest)[1] == e[1]; }
  }

  /** Any text is spelled characters up to where they stop. */
  lemma {:induction false} Stopped(s: string) returns (content: string, marked: seq<bool>, tail: string)
    ensures SpellingOk(content, marked) && Stops(tail) && s == Spelling(content, marked) + tail
  {
    content, marked, tail := "", [], s;
    if s != "" && s[0] != '"' && s != "\\" {
      if s[0] != '\\' {
        var c, m, t := Stopped(s[1..]);
        content, marked, tail := [s[0]] + c, [false] + m, t;
        assert content[1..] == c && marked[1..] == m && s == [s[0]] + s[1..];
      } else {
        EscapesAre(s[1]);
        if Unescape(s[1]).Some? {
          var c, m, t := Stopped(s[2..]);
          content, marked, tail := [Unescape(s[1]).value] + c, [true] + m, t;
          assert content[1..] == c && marked[1..] == m && s == ['\\', s[1]] + s[2..];
        }
      }
    }
  }

  /** What the scanner makes of the text behind an opening quote: a string exactly when spelled characters run up
      to a quote, and otherwise the error that says what they run up to. */
  lemma StringGrammar(s: string)
    ensures exists content, marked, tail ::
              && SpellingOk(content, marked) && Stops(tail) && s == Spelling(content, marked) + tail
              && ScanString(s) == Following(content, |Spelling(content, marked)|, StopScan(tail))
  {
    var content, marked, tail := Stopped(s);
    ScanSpelling(content, marked, tail);
  }
}
