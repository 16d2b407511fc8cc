/** The scanner as a function of the source text, one lexical step at a time. Tokens carry their offset;
    `PosAt` says what line and column an offset is. */
module Lexer {
  import opened Types
  import opened Numerals

  /** A float token keeps its spelling. */
  datatype Token =
    | Semicolon | LParen | RParen | Pipe | LBracket | RBracket
    | Int(n: int)
    | Float(spelling: string)
    | Word(text: string)
    | Str(content: string)
    | TildeLBracket

  datatype LexError = UnknownEscape(c: char) | UnterminatedString | IntOutOfRange(text: string)

  // ---------------------------------------------------------------- characters

  /** Unicode's White_Space property. */
  predicate IsWhitespace(c: char) {
    || '\U{0009}' <= c <= '\U{000D}' || c == ' ' || c == '\U{0085}' || c == '\U{00A0}' || c == '\U{1680}'
    || '\U{2000}' <= c <= '\U{200A}' || c == '\U{2028}' || c == '\U{2029}' || c == '\U{202F}' || c == '\U{205F}' ||
      c == '\U{3000}'
  }

  predicate IsDelimiter(c: char) { c in {';', '(', ')', '|', '[', ']'} }

  function DelimiterToken(c: char): Token
    requires IsDelimiter(c)
  {
    match c
    case ';' => Semicolon
    case '(' => LParen
    case ')' => RParen
    case '|' => Pipe
    case '[' => LBracket
    case _ => RBracket
  }

  // ---------------------------------------------------------------- literals

  function StripMinus(text: string): string { if text != "" && text[0] == '-' then text[1..] else text }

  predicate IsIntLiteral(text: string) { Digits(StripMinus(text)) }

  function IntValue(text: string): int
    requires IsIntLiteral(text)
  {
    if text[0] == '-' then 0 - DigitsValue(text[1..]) else DigitsValue(text)
  }

  predicate InI64(n: int) { -0x8000_0000_0000_0000 <= n < 0x8000_0000_0000_0000 }

  /** The first position holding a character of `cs`, or the length. */
  function Find(s: string, cs: set<char>): (k: nat)
    ensures k <= |s| && (k < |s| ==> s[k] in cs) && forall i :: 0 <= i < k ==> s[i] !in cs
  {
    if s == [] || s[0] in cs then 0 else 1 + Find(s[1..], cs)
  }

  predicate IsFloatLiteral(text: string) { IsUnsignedFloat(StripMinus(text)) }

  predicate IsUnsignedFloat(text: string) {
    var dot := Find(text, {'.'});
    dot < |text| && Digits(text[..dot]) && IsFraction(text[dot + 1..])
  }

  /** What may follow the dot. */
  predicate IsFraction(rest: string) {
    var end := Find(rest, {'e', 'E'});
    Digits(rest[..end]) && (end == |rest| || ExponentDigits(rest[end + 1..]))
  }

  predicate ExponentDigits(s: string) { Digits(if s != "" && s[0] in {'+', '-'} then s[1..] else s) }

  ghost predicate ExponentParts(tail: string, e: char, sign: string, digits: string) {
    e in {'e', 'E'} && sign in {"", "+", "-"} && Digits(digits) && tail == [e] + sign + digits
  }

  ghost predicate IsExponent(tail: string) {
    tail == "" || exists e, sign, digits :: ExponentParts(tail, e, sign, digits)
  }

  /** The grammar the predicate recognises: digits on both sides of one dot, then maybe an exponent. */
  ghost predicate FloatParts(text: string, sign: string, whole: string, frac: string, tail: string) {
    && sign in {"", "-"} && Digits(whole) && Digits(frac)
    && IsExponent(tail)
    && text == sign + (whole + "." + (frac + tail))
  }

  lemma FindIs(s: string, cs: set<char>, k: nat)
    requires k <= |s| && (k < |s| ==> s[k] in cs) && forall i :: 0 <= i < k ==> s[i] !in cs
    ensures Find(s, cs) == k
  {
  }

  lemma ExponentGrammar(tail: string)
    ensures IsExponent(tail) <==> tail == "" || (tail[0] in {'e', 'E'} && ExponentDigits(tail[1..]))
  {
    if tail != "" && tail[0] in {'e', 'E'} && ExponentDigits(tail[1..]) { DigitsHaveParts(tail); }
    if e, sign, digits :| ExponentParts(tail, e, sign, digits) { PartsAreDigits(tail, e, sign, digits); }
  }

  lemma DigitsHaveParts(tail: string)
    requires tail != "" && tail[0] in {'e', 'E'} && ExponentDigits(tail[1..])
    ensures IsExponent(tail)
  {
    var after := tail[1..];
    var signed := after[0] in {'+', '-'};
    var sign, digits := if signed then [after[0]] else "", if signed then after[1..] else after;
    hide Digits;
    assert after == sign + digits && tail == [tail[0]] + sign + digits;
    assert ExponentParts(tail, tail[0], sign, digits);
  }

  lemma PartsAreDigits(tail: string, e: char, sign: string, digits: string)
    requires ExponentParts(tail, e, sign, digits)
    ensures tail != "" && tail[0] in {'e', 'E'} && ExponentDigits(tail[1..])
  {
    var after := tail[1..];
    assert after == sign + digits;
    if sign == "" {
      assert after == digits && IsDigit(digits[0]);
    } else {
      assert after[1..] == digits;
    }
  }

  lemma FractionHasParts(rest: string)
    requires IsFraction(rest)
    ensures exists frac, tail :: Digits(frac) && IsExponent(tail) && rest == frac + tail
  {
    hide ExponentDigits, IsExponent, Digits;
    var end := Find(rest, {'e', 'E'});
    var frac, tail := rest[..end], rest[end..];
    assert rest == frac + tail;
    assert tail != "" ==> tail[1..] == rest[end + 1..] && tail[0] == rest[end];
    ExponentGrammar(tail);
  }

  lemma PartsAreFraction(frac: string, tail: string)
    requires Digits(frac) && IsExponent(tail)
    ensures IsFraction(frac + tail)
  {
    hide ExponentDigits, IsExponent;
    var rest := frac + tail;
    ExponentGrammar(tail);
    FindIs(rest, {'e', 'E'}, |frac|);
    assert rest[..|frac|] == frac;
    assert tail != "" ==> rest[|frac| + 1..] == tail[1..];
  }

  lemma FloatGrammar(text: string)
    ensures IsFloatLiteral(text) <==> exists sign, whole, frac, tail :: FloatParts(text, sign, whole, frac, tail)
  {
    if IsFloatLiteral(text) { FloatHasParts(text); }
    if exists sign, whole, frac, tail :: FloatParts(text, sign, whole, frac, tail) {
      var sign, whole, frac, tail :| FloatParts(text, sign, whole, frac, tail);
      PartsAreFloat(text, sign, whole, frac, tail);
    }
  }

  lemma FloatHasParts(text: string)
    requires IsFloatLiteral(text)
    ensures exists sign, whole, frac, tail :: FloatParts(text, sign, whole, frac, tail)
  {
    hide Digits, IsExponent, FloatParts, IsFraction, IsUnsignedFloat;
    var body := StripMinus(text);
    var sign := if text != "" && text[0] == '-' then "-" else "";
    assert text == sign + body;
    var whole, rest := UnsignedHasParts(body);
    FractionHasParts(rest);
    var frac, tail :| Digits(frac) && IsExponent(tail) && rest == frac + tail;
    hide *;
    PartsAre(text, sign, whole, frac, tail);
  }

  lemma UnsignedHasParts(body: string) returns (whole: string, rest: string)
    requires IsUnsignedFloat(body)
    ensures Digits(whole) && IsFraction(rest) && body == whole + "." + rest
  {
    hide Digits, IsFraction;
    var dot := Find(body, {'.'});
    whole, rest := body[..dot], body[dot + 1..];
  }

  lemma PartsAre(text: string, sign: string, whole: string, frac: string, tail: string)
    requires sign in {"", "-"} && Digits(whole) && Digits(frac) && IsExponent(tail)
    requires text == sign + (whole + "." + (frac + tail))
    ensures FloatParts(text, sign, whole, frac, tail)
  {
    hide Digits, IsExponent;
  }

  lemma PartsAreFloat(text: string, sign: string, whole: string, frac: string, tail: string)
    requires FloatParts(text, sign, whole, frac, tail)
    ensures IsFloatLiteral(text)
  {
    hide IsFraction, IsExponent;
    var rest := frac + tail;
    var body := whole + "." + rest;
    PartsAreFraction(frac, tail);
    assert IsDigit(body[0]);
    assert StripMinus(text) == body;
    FindIs(body, {'.'}, |whole|);
    assert body[..|whole|] == whole && body[|whole| + 1..] == rest;
  }

  // ---------------------------------------------------------------- one lexical step

  /** The length of the word at the front. A `|` joins a word already begun when `>` follows. */
  function WordLen(s: string, begun: bool): (n: nat)
    ensures n <= |s|
  {
    if s == [] then 0
    else if s[0] == '|' && begun && |s| > 1 && s[1] == '>' then 1 + WordLen(s[1..], true)
    else if IsWhitespace(s[0]) || IsDelimiter(s[0]) then 0
    else 1 + WordLen(s[1..], true)
  }

  function LineLen(s: string): (n: nat)
    ensures n <= |s|
  {
    if s == [] || s[0] == '\n' then 0 else 1 + LineLen(s[1..])
  }

  datatype StringScan = Closed(content: string, len: nat) | Broken(error: LexError) {
    function Prepend(c: char, n: nat): StringScan {
      match this
      case Closed(content, len) => Closed([c] + content, n + len)
      case Broken(error) => Broken(error)
    }
  }

  function Unescape(c: char): Option<char> {
    match c
    case 'n' => Some('\n')
    case 't' => Some('\t')
    case '\\' => Some('\\')
    case '"' => Some('"')
    case '0' => Some('\0')
    case _ => None
  }

  /** A string's content, from just after its opening quote. */
  function ScanString(s: string): (r: StringScan)
    ensures r.Closed? ==> 1 <= r.len <= |s|
  {
    if s == [] then Broken(UnterminatedString)
    else if s[0] == '"' then Closed("", 1)
    else if s[0] == '\\' then
      if |s| == 1 then Broken(UnterminatedString)
      else
        match Unescape(s[1])
        case None => Broken(UnknownEscape(s[1]))
        case Some(c) => ScanString(s[2..]).Prepend(c, 2)
    else ScanString(s[1..]).Prepend(s[0], 1)
  }

  /** What the front of the text is: something skipped, a token, or an error. */
  datatype Step = Skip(n: nat) | Emit(token: Token, n: nat) | Fail(error: LexError)

  /** A maximal word as a token. */
  function WordStep(text: string): Step {
    if IsIntLiteral(text) then
      if InI64(IntValue(text)) then Emit(Int(IntValue(text)), |text|) else Fail(IntOutOfRange(text))
    else if IsFloatLiteral(text) then Emit(Float(text), |text|)
    else Emit(Word(text), |text|)
  }

  /** What the maximal word, of length `n`, turns out to be. */
  function WordScan(s: string, n: nat): (r: Step)
    requires 1 <= n <= |s|
    ensures !r.Fail? ==> 1 <= r.n <= |s|
  {
    var text := s[..n];
    if text == "~" && n < |s| && s[n] == '[' then Emit(TildeLBracket, n + 1)
    else if text == "\\" then Skip(n + LineLen(s[n..]))
    else WordStep(text)
  }

  function Scan(s: string): (r: Step)
    requires s != []
    ensures !r.Fail? ==> 1 <= r.n <= |s|
  {
    var c := s[0];
    if IsWhitespace(c) then Skip(1)
    else if IsDelimiter(c) then Emit(DelimiterToken(c), 1)
    else if c == '"' then
      match ScanString(s[1..])
      case Closed(content, len) => Emit(Str(content), 1 + len)
      case Broken(error) => Fail(error)
    else WordScan(s, WordLen(s, false))
  }

  // ---------------------------------------------------------------- the whole text

  type Lexed = Result<seq<(Token, nat)>, (LexError, nat)>

  function Shift(ts: seq<(Token, nat)>, off: nat): (r: seq<(Token, nat)>)
    ensures |r| == |ts| && forall i :: 0 <= i < |ts| ==> r[i] == (ts[i].0, ts[i].1 + off)
  {
    seq(|ts|, i requires 0 <= i < |ts| => (ts[i].0, ts[i].1 + off))
  }

  /** `rest` is what remains `off` characters on, after the tokens `before`. */
  function After(before: seq<(Token, nat)>, off: nat, rest: Lexed): Lexed {
    match rest
    case Ok(ts) => Ok(before + Shift(ts, off))
    case Err(e) => Err((e.0, e.1 + off))
  }

  function LexFrom(s: string): (r: Lexed)
    ensures r.Ok? ==> forall i :: 0 <= i < |r.value| ==> r.value[i].1 < |s|
    ensures r.Err? ==> r.error.1 < |s|
  {
    if s == [] then Ok([])
    else
      match Scan(s)
      case Skip(n) => After([], n, LexFrom(s[n..]))
      case Emit(t, n) => After([(t, 0)], n, LexFrom(s[n..]))
      case Fail(e) => Err((e, 0))
  }

  lemma LexStep(s: string)
    requires s != ""
    ensures Scan(s).Skip? ==> LexFrom(s) == After([], Scan(s).n, LexFrom(s[Scan(s).n..]))
    ensures Scan(s).Emit? ==> LexFrom(s) == After([(Scan(s).token, 0)], Scan(s).n, LexFrom(s[Scan(s).n..]))
    ensures Scan(s).Fail? ==> LexFrom(s) == Err((Scan(s).error, 0))
  {
    hide Scan, After;
  }

  lemma AfterAfter(a: seq<(Token, nat)>, m: nat, b: seq<(Token, nat)>, n: nat, rest: Lexed)
    ensures After(a, m, After(b, n, rest)) == After(a + Shift(b, m), m + n, rest)
  {
    if rest.Ok? {
      assert a + Shift(b + Shift(rest.value, n), m) == a + Shift(b, m) + Shift(rest.value, m + n);
    }
  }

  function Tokens(ts: seq<(Token, nat)>): (r: seq<Token>)
    ensures |r| == |ts| && forall i :: 0 <= i < |ts| ==> r[i] == ts[i].0
  {
    seq(|ts|, i requires 0 <= i < |ts| => ts[i].0)
  }

  // ---------------------------------------------------------------- positions

  datatype Span = Span(line: nat, col: nat)

  function Newlines(s: string): nat {
    if s == [] then 0 else Newlines(s[..|s| - 1]) + if s[|s| - 1] == '\n' then 1 else 0
  }

  function SinceNewline(s: string): nat {
    if s == [] || s[|s| - 1] == '\n' then 0 else 1 + SinceNewline(s[..|s| - 1])
  }

  /** One plus the newlines before the offset, and one plus the characters since the last of them. */
  function PosAt(src: string, offset: nat): Span
    requires offset <= |src|
  {
    Span(1 + Newlines(src[..offset]), 1 + SinceNewline(src[..offset]))
  }

  lemma PosNext(src: string, k: nat)
    requires k < |src|
    ensures PosAt(src, k + 1) == if src[k] == '\n' then Span(PosAt(src, k).line + 1, 1)
              else Span(PosAt(src, k).line, PosAt(src, k).col + 1)
  {
    assert src[..k + 1][..k] == src[..k];
  }

  predicate Inside(src: string, ts: seq<(Token, nat)>) { forall i :: 0 <= i < |ts| ==> ts[i].1 < |src| }

  function Place(src: string, ts: seq<(Token, nat)>): (r: seq<(Token, Span)>)
    requires Inside(src, ts)
    ensures |r| == |ts| && forall i :: 0 <= i < |ts| ==> r[i] == (ts[i].0, PosAt(src, ts[i].1))
  {
    seq(|ts|, i requires 0 <= i < |ts| => (ts[i].0, PosAt(src, ts[i].1)))
  }

  /** The whole result: every token with its position, or the first error and where its token starts. */
  function LexAll(src: string): Result<seq<(Token, Span)>, (LexError, Span)> {
    match LexFrom(src)
    case Ok(ts) => Ok(Place(src, ts))
    case Err(e) => Err((e.0, PosAt(src, e.1)))
  }
}
