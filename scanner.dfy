/**
 * The jlox scanner: turns source text into a token list.
 *
 * The first half of the module gives the meaning of one call of scanToken
 * (ScanStep) and of the scanning loop (Run) as functions over the source
 * text; the class Scanner is the imperative scanner, with the cursor fields
 * start/current/line and the growing token list, proved to follow them.
 * Java exceptions that abort the scan (charAt past the end, a number lexeme
 * that Double.parseDouble rejects) are Crash outcomes.
 */
module Scanner {
  import opened Common
  import opened Syntax
  import StringUtils

  /** An exception escaping scanTokens. */
  datatype Crash =
    | IndexOutOfBounds(index: int)   // String.charAt or List.get out of range
    | NumberFormat(lexeme: string)   // Double.parseDouble rejects the lexeme

  /** The half-open source range [start, stop) a token was taken from. */
  datatype Span = Span(start: nat, stop: nat)

  /** What one scanToken call does: where it stops, the line it reaches, what it emits. */
  datatype Step =
    | Lexed(next: nat, line: int, token: Option<Token>, diagnostic: Option<Diagnostic>)
    | Crashed(crash: Crash)

  /** The scanner's fields, as one value. */
  datatype ScanState = ScanState(
    current: nat, line: int, tokens: seq<Token>, spans: seq<Span>, diagnostics: seq<Diagnostic>)

  /** The value returned to the caller of scanTokens, with the errors reported meanwhile. */
  datatype Scanned = Scanned(tokens: seq<Token>, diagnostics: seq<Diagnostic>)

  // ---------------------------------------------------------------------------
  // Character classes and look-ahead

  /** peek and peekNext: the character at p, or '\0' past the end. */
  function PeekAt(src: string, p: nat): char {
    if p < |src| then src[p] else '\0'
  }

  /** match: the next character exists and is the expected one. */
  predicate Matches(src: string, p: nat, expected: char) {
    p < |src| && src[p] == expected
  }

  predicate IsDigit(c: char) { '0' <= c <= '9' }

  predicate IsAlpha(c: char) { ('a' <= c <= 'z') || ('A' <= c <= 'Z') || c == '_' }

  predicate IsAlphaNumeric(c: char) { IsAlpha(c) || IsDigit(c) }

  /** The reserved-word table. */
  const Keywords: map<string, TokenType> := map[
    "and" := AND, "class" := CLASS, "else" := ELSE, "false" := FALSE,
    "for" := FOR, "fun" := FUN, "if" := IF, "nil" := NIL, "or" := OR,
    "print" := PRINT, "return" := RETURN, "super" := SUPER, "this" := THIS,
    "true" := TRUE, "var" := VAR, "while" := WHILE, "break" := BREAK,
    "continue" := CONTINUE]

  /** The type of an identifier-shaped lexeme: its keyword, else IDENTIFIER. */
  function IdentifierKind(text: string): (k: TokenType)
    ensures k != EOF
  {
    if text in Keywords then Keywords[text] else IDENTIFIER
  }

  /** The number of newline characters in s. */
  function NewlineCount(s: string): (n: nat)
    ensures n <= |s|
  {
    if s == [] then 0
    else
      var init := s[..|s| - 1];
      NewlineCount(init) + (if s[|s| - 1] == '\n' then 1 else 0)
  }

  /** One more character of a slice adds one to the count exactly when it is a newline. */
  lemma NewlineCountStep(s: string, i: nat, j: nat)
    requires i <= j < |s|
    ensures NewlineCount(s[i..j + 1]) == NewlineCount(s[i..j]) + (if s[j] == '\n' then 1 else 0)
  {
    assert s[i..j + 1][..j - i] == s[i..j];
  }

  /** The count is zero exactly when the text holds no newline. */
  lemma {:induction false} NewlineCountZero(s: string)
    ensures NewlineCount(s) == 0 <==> '\n' !in s
  {
    if s != [] {
      var init := s[..|s| - 1];
      NewlineCountZero(init);
      assert s == init + [s[|s| - 1]];
    }
  }

  // ---------------------------------------------------------------------------
  // Where the inner scanning loops stop

  /** identifier: the first position at or after p that is not alphanumeric. */
  function IdentifierEnd(src: string, p: nat): (q: nat)
    requires p <= |src|
    ensures p <= q <= |src|
    ensures forall k :: p <= k < q ==> IsAlphaNumeric(src[k])
    ensures q == |src| || !IsAlphaNumeric(src[q])
    decreases |src| - p
  {
    if p < |src| && IsAlphaNumeric(src[p]) then IdentifierEnd(src, p + 1) else p
  }

  /** `while (isDigit(peek())) advance();`: the first non-digit position at or after p. */
  function DigitsEnd(src: string, p: nat): (q: nat)
    requires p <= |src|
    ensures p <= q <= |src|
    ensures q == |src| || !IsDigit(src[q])
    decreases |src| - p
  {
    if p < |src| && IsDigit(src[p]) then DigitsEnd(src, p + 1) else p
  }

  /** Every character the digit loop passes is a digit. */
  lemma {:induction false} DigitsEndAllDigits(src: string, p: nat)
    requires p <= |src|
    ensures forall k :: p <= k < DigitsEnd(src, p) ==> IsDigit(src[k])
    decreases |src| - p
  {
    if p < |src| && IsDigit(src[p]) {
      DigitsEndAllDigits(src, p + 1);
    }
  }

  /** number(), entered with the first character already consumed and p just after it. */
  function NumberEnd(src: string, p: nat): (q: nat)
    requires p <= |src|
    ensures p <= q <= |src|
  {
    var p1 := if Matches(src, p, '.') then p + 1 else p;
    var p2 := DigitsEnd(src, p1);
    var p3 := if Matches(src, p2, '.') && IsDigit(PeekAt(src, p2 + 1)) then p2 + 1 else p2;
    DigitsEnd(src, p3)
  }

  /** A `//` comment runs up to, not including, the next newline. */
  function LineCommentEnd(src: string, p: nat): (q: nat)
    requires p <= |src|
    ensures p <= q <= |src|
    ensures forall k :: p <= k < q ==> src[k] != '\n'
    ensures q == |src| || src[q] == '\n'
    decreases |src| - p
  {
    if p < |src| && src[p] != '\n' then LineCommentEnd(src, p + 1) else p
  }

  /** A star-slash pair starts at k. */
  predicate ClosesComment(src: string, k: nat) {
    k < |src| && src[k] == '*' && PeekAt(src, k + 1) == '/'
  }

  /** A block comment's body runs up to the first star-slash pair, or to the end. */
  function BlockCommentEnd(src: string, p: nat): (q: nat)
    requires p <= |src|
    ensures p <= q <= |src|
    ensures q == |src| || ClosesComment(src, q)
    decreases |src| - p
  {
    if p < |src| && !ClosesComment(src, p) then BlockCommentEnd(src, p + 1) else p
  }

  /** No closing pair comes before BlockCommentEnd: it is the first one. */
  lemma {:induction false} BlockCommentEndIsFirst(src: string, p: nat)
    requires p <= |src|
    ensures forall k :: p <= k < BlockCommentEnd(src, p) ==> !ClosesComment(src, k)
    decreases |src| - p
  {
    if p < |src| && !ClosesComment(src, p) {
      BlockCommentEndIsFirst(src, p + 1);
    }
  }

  /**
   * The isEscapeActive flag of string() when the loop reaches k, the body
   * having started at p: set just after a backslash that was not itself escaped.
   */
  predicate EscapeActive(src: string, p: nat, k: nat)
    requires p <= k <= |src|
    decreases k - p
  {
    if k == p then false else !EscapeActive(src, p, k - 1) && src[k - 1] == '\\'
  }

  /** A string body starting at p ends at the first terminator that is not escaped. */
  function StringEnd(src: string, p: nat, k: nat, terminator: char): (q: nat)
    requires p <= k <= |src|
    ensures k <= q <= |src|
    ensures q < |src| ==> src[q] == terminator && !EscapeActive(src, p, q)
    decreases |src| - k
  {
    if k == |src| || (src[k] == terminator && !EscapeActive(src, p, k)) then k
    else StringEnd(src, p, k + 1, terminator)
  }

  // ---------------------------------------------------------------------------
  // Number literals

  predicate NumberShaped(s: string) {
    forall i :: 0 <= i < |s| ==> IsDigit(s[i]) || s[i] == '.'
  }

  predicate AllDigits(s: string) {
    forall i :: 0 <= i < |s| ==> IsDigit(s[i])
  }

  function DigitValue(c: char): (d: nat)
    requires IsDigit(c)
    ensures d < 10
  {
    c as int - '0' as int
  }

  /** The value of a string of decimal digits. */
  function IntegerValue(s: string): nat
    requires AllDigits(s)
  {
    if s == [] then 0 else IntegerValue(s[..|s| - 1]) * 10 + DigitValue(s[|s| - 1])
  }

  /** The value of the digits after a decimal point. */
  function FractionValue(s: string): real
    requires AllDigits(s)
  {
    if s == [] then 0.0 else (DigitValue(s[0]) as real + FractionValue(s[1..])) / 10.0
  }

  /** The position of the first '.', or |s| if there is none. */
  function DotIndex(s: string): (i: nat)
    ensures i <= |s|
    ensures forall k :: 0 <= k < i ==> s[k] != '.'
    ensures i < |s| ==> s[i] == '.'
  {
    if s == [] || s[0] == '.' then 0 else 1 + DotIndex(s[1..])
  }

  /**
   * Double.parseDouble on a lexeme made of digits and dots, read as an exact
   * decimal: it fails when the lexeme holds a second dot.
   */
  function ParseNumber(lexeme: string): Option<real>
    requires NumberShaped(lexeme)
  {
    var i := DotIndex(lexeme);
    if i == |lexeme| then Some(IntegerValue(lexeme) as real)
    else
      var fraction := lexeme[i + 1..];
      if '.' in fraction then None
      else Some(IntegerValue(lexeme[..i]) as real + FractionValue(fraction))
  }

  /** A lexeme taken by number() is made of digits and dots. */
  lemma NumberLexemeShaped(src: string, start: nat)
    requires start < |src| && (IsDigit(src[start]) || src[start] == '.')
    ensures NumberShaped(src[start..NumberEnd(src, start + 1)])
  {
    var p := start + 1;
    var p1 := if Matches(src, p, '.') then p + 1 else p;
    var p2 := DigitsEnd(src, p1);
    var p3 := if Matches(src, p2, '.') && IsDigit(PeekAt(src, p2 + 1)) then p2 + 1 else p2;
    DigitsEndAllDigits(src, p1);
    DigitsEndAllDigits(src, p3);
    var q := DigitsEnd(src, p3);
    assert q == NumberEnd(src, p);
    forall i | 0 <= i < q - start
      ensures IsDigit(src[start..q][i]) || src[start..q][i] == '.'
    {
      assert src[start..q][i] == src[start + i];
    }
  }

  // ---------------------------------------------------------------------------
  // One call of scanToken

  /** addToken: the lexeme is the source text from start to next. */
  function Emit(src: string, start: nat, next: nat, line: int, kind: TokenType, literal: LitValue): Step
    requires start <= next <= |src|
  {
    Lexed(next, line, Some(Token(kind, src[start..next], literal, line)), None)
  }

  /** A character that produces no token. */
  function Skip(next: nat, line: int): Step {
    Lexed(next, line, None, None)
  }

  /** identifier(): the longest alphanumeric run, looked up in the keyword table. */
  function IdentifierStep(src: string, start: nat, line: int): Step
    requires start < |src|
  {
    var q := IdentifierEnd(src, start + 1);
    Emit(src, start, q, line, IdentifierKind(src[start..q]), NilLit)
  }

  /** number(), entered from a digit or from a '.' followed by a digit. */
  function NumberStep(src: string, start: nat, line: int): Step
    requires start < |src|
    requires IsDigit(src[start]) || src[start] == '.'
  {
    var q := NumberEnd(src, start + 1);
    var text := src[start..q];
    NumberLexemeShaped(src, start);
    match ParseNumber(text)
    case None => Crashed(NumberFormat(text))
    case Some(v) => Emit(src, start, q, line, NUMBER, NumLit(v))
  }

  /** The message string() reports when the source ends inside a string. */
  const UnterminatedMessage := "Unterminated string."

  /** string(terminator): the opening quote is at start. */
  function StringStep(src: string, start: nat, line: int, terminator: char): Step
    requires start < |src|
  {
    var q := StringEnd(src, start + 1, start + 1, terminator);
    var reached := line + NewlineCount(src[start + 1..q]);
    if q == |src| then
      Lexed(q, reached, None, Some(ErrorAtLine(reached, UnterminatedMessage)))
    else
      ClosedString(src, start, q + 1, reached)
  }

  /**
   * The end of string(), the closing quote consumed: the token keeps the
   * unescaped body, or the raw body when unescaping fails.
   */
  function ClosedString(src: string, start: nat, next: nat, line: int): Step
    requires start + 2 <= next <= |src|
  {
    var body := src[start + 1..next - 1];
    var lexeme := src[start..next];
    match StringUtils.Unescape(body)
    case Ok(value) => Lexed(next, line, Some(Token(STRING, lexeme, StrLit(value), line)), None)
    case Err(message) =>
      Lexed(next, line, Some(Token(STRING, lexeme, StrLit(body), line)), Some(ErrorAtLine(line, message)))
  }

  /** StringStep when the terminator is found. */
  lemma StringStepClosed(src: string, start: nat, line: int, terminator: char, q: nat, reached: int)
    requires start < |src| && q == StringEnd(src, start + 1, start + 1, terminator) < |src|
    requires reached == line + NewlineCount(src[start + 1..q])
    ensures StringStep(src, start, line, terminator) == ClosedString(src, start, q + 1, reached)
  {
  }

  /** StringStep when the source ends before the terminator. */
  lemma StringStepOpen(src: string, start: nat, line: int, terminator: char, q: nat, reached: int)
    requires start < |src| && q == StringEnd(src, start + 1, start + 1, terminator) == |src|
    requires reached == line + NewlineCount(src[start + 1..q])
    ensures StringStep(src, start, line, terminator) == Lexed(q, reached, None, Some(ErrorAtLine(reached, UnterminatedMessage)))
  {
  }

  /** A block comment: the closing pair is consumed by two advance() calls, which fail at the end. */
  function BlockCommentStep(src: string, start: nat, line: int): Step
    requires start + 2 <= |src|
  {
    var q := BlockCommentEnd(src, start + 2);
    if q == |src| then Crashed(IndexOutOfBounds(q))
    else Skip(q + 2, line + NewlineCount(src[start + 2..q]))
  }

  /** The message reported for a character that starts no lexeme. */
  function UnexpectedMessage(c: char): string {
    "Unexpected character '" + [c] + "'."
  }

  /** The characters that always form a token on their own. */
  function SingleCharKind(c: char): Option<TokenType> {
    match c
    case '(' => Some(LEFT_PAREN)
    case ')' => Some(RIGHT_PAREN)
    case '{' => Some(LEFT_BRACE)
    case '}' => Some(RIGHT_BRACE)
    case ',' => Some(COMMA)
    case '-' => Some(MINUS)
    case '+' => Some(PLUS)
    case ';' => Some(SEMICOLON)
    case '*' => Some(STAR)
    case '?' => Some(QUESTION_MARK)
    case ':' => Some(COLON)
    case _ => None
  }

  /** The characters that form a token alone or together with a following '=': (alone, with '='). */
  function OperatorKinds(c: char): Option<(TokenType, TokenType)> {
    match c
    case '!' => Some((BANG, BANG_EQUAL))
    case '=' => Some((EQUAL, EQUAL_EQUAL))
    case '<' => Some((LESS, LESS_EQUAL))
    case '>' => Some((GREATER, GREATER_EQUAL))
    case _ => None
  }

  predicate IsWhitespace(c: char) { c == ' ' || c == '\r' || c == '\t' }

  /** '!', '=', '<', '>': the two-character token when '=' follows, else the one-character one. */
  function OperatorStep(src: string, start: nat, line: int): Step
    requires start < |src| && OperatorKinds(src[start]).Some?
  {
    var (alone, withEqual) := OperatorKinds(src[start]).value;
    if Matches(src, start + 1, '=') then Emit(src, start, start + 2, line, withEqual, NilLit)
    else Emit(src, start, start + 1, line, alone, NilLit)
  }

  /** '.': a number when a digit follows, else DOT. */
  function DotStep(src: string, start: nat, line: int): Step
    requires start < |src| && src[start] == '.'
  {
    if IsDigit(PeekAt(src, start + 1)) then NumberStep(src, start, line)
    else Emit(src, start, start + 1, line, DOT, NilLit)
  }

  /** '/': a line comment, a block comment, or SLASH. */
  function SlashStep(src: string, start: nat, line: int): Step
    requires start < |src|
  {
    var p := start + 1;
    if Matches(src, p, '/') then Skip(LineCommentEnd(src, p + 1), line)
    else if Matches(src, p, '*') then BlockCommentStep(src, start, line)
    else Emit(src, start, p, line, SLASH, NilLit)
  }

  /** One call of scanToken with start == current: the switch on the first character. */
  function ScanStep(src: string, start: nat, line: int): (r: Step)
    requires start < |src|
    ensures r.Lexed? ==> start < r.next <= |src|
  {
    var c := src[start];
    if SingleCharKind(c).Some? then Emit(src, start, start + 1, line, SingleCharKind(c).value, NilLit)
    else if c == '.' then DotStep(src, start, line)
    else if OperatorKinds(c).Some? then OperatorStep(src, start, line)
    else if c == '/' then SlashStep(src, start, line)
    else if IsWhitespace(c) then Skip(start + 1, line)
    else if c == '\n' then Skip(start + 1, line + 1)
    else if c == '"' || c == '\'' then StringStep(src, start, line, c)
    else if IsDigit(c) then NumberStep(src, start, line)
    else if IsAlpha(c) then IdentifierStep(src, start, line)
    else Lexed(start + 1, line, None, Some(ErrorAtLine(line, UnexpectedMessage(c))))
  }

  /** The scanner's fields after a step that did not crash. */
  function Apply(s: ScanState, step: Step): ScanState
    requires step.Lexed?
  {
    ScanState(
      step.next, step.line,
      s.tokens + OptionToSeq(step.token),
      s.spans + (if step.token.Some? then [Span(s.current, step.next)] else []),
      s.diagnostics + OptionToSeq(step.diagnostic))
  }

  /** Apply starts from the cursor, tokens and diagnostics of s; its line comes from the step. */
  lemma ApplyIgnoresLine(s: ScanState, line: int, step: Step)
    requires step.Lexed?
    ensures Apply(s.(line := line), step) == Apply(s, step)
  {
  }

  /** The loop of scanTokens: scanToken until the cursor reaches the end. */
  function Run(src: string, s: ScanState): Result<ScanState, Crash>
    requires s.current <= |src|
    decreases |src| - s.current
  {
    if s.current == |src| then Ok(s)
    else
      match ScanStep(src, s.current, s.line)
      case Crashed(c) => Err(c)
      case step => Run(src, Apply(s, step))
  }

  /** The fields of a fresh scanner. */
  const Initial: ScanState := ScanState(0, 1, [], [], [])

  function EofToken(line: int): Token { Token(EOF, "", NilLit, line) }

  function SemicolonToken(line: int): Token { Token(SEMICOLON, ";", NilLit, line) }

  /** scanTokens on a scanner in state s: the loop, then one EOF token. */
  function FinishBatch(src: string, s: ScanState): Result<Scanned, Crash>
    requires s.current <= |src|
  {
    match Run(src, s)
    case Err(c) => Err(c)
    case Ok(t) => Ok(Scanned(t.tokens + [EofToken(t.line)], t.diagnostics))
  }

  /**
   * scanTokensInteractive on a scanner in state s: the loop, a SEMICOLON when
   * the last token is not one, then EOF; tokens.get(size - 1) fails on an empty list.
   */
  function FinishInteractive(src: string, s: ScanState): Result<Scanned, Crash>
    requires s.current <= |src|
  {
    match Run(src, s)
    case Err(c) => Err(c)
    case Ok(t) =>
      if |t.tokens| == 0 then Err(IndexOutOfBounds(-1))
      else
        var closed := if !t.tokens[|t.tokens| - 1].kind.SEMICOLON?
                      then t.tokens + [SemicolonToken(t.line)] else t.tokens;
        Ok(Scanned(closed + [EofToken(t.line)], t.diagnostics))
  }

  function ScanTokens(src: string): Result<Scanned, Crash> {
    FinishBatch(src, Initial)
  }

  function ScanTokensInteractive(src: string): Result<Scanned, Crash> {
    FinishInteractive(src, Initial)
  }

  // ---------------------------------------------------------------------------
  // The imperative scanner

  class Scanner {
    const source: string
    var tokens: seq<Token>
    var diagnostics: seq<Diagnostic>
    var start: nat
    var current: nat
    var line: int
    /** Where each token of `tokens` was taken from. */
    ghost var spans: seq<Span>

    ghost predicate Valid()
      reads this
    {
      start <= current <= |source|
    }

    ghost function State(): ScanState
      reads this
    {
      ScanState(current, line, tokens, spans, diagnostics)
    }

    /** The fields as they were when the current lexeme began, at start. */
    ghost function AtLexemeStart(): ScanState
      reads this
    {
      ScanState(start, line, tokens, spans, diagnostics)
    }

    constructor (source: string)
      ensures this.source == source
      ensures Valid() && State() == Initial
    {
      this.source := source;
      tokens := [];
      diagnostics := [];
      start := 0;
      current := 0;
      line := 1;
      spans := [];
    }

    predicate IsAtEnd()
      reads this
    {
      current >= |source|
    }

    function Peek(): char
      reads this
    {
      PeekAt(source, current)
    }

    function PeekNext(): char
      reads this
    {
      PeekAt(source, current + 1)
    }

    /** match: consumes the next character when it is the expected one. */
    method Match(expected: char) returns (matched: bool)
      modifies this`current
      ensures matched == Matches(source, old(current), expected)
      ensures current == if matched then old(current) + 1 else old(current)
    {
      if current >= |source| { return false; }
      if source[current] != expected { return false; }
      current := current + 1;
      return true;
    }

    /** advance: charAt(current++), which fails past the end after the increment. */
    method Advance() returns (r: Result<char, Crash>)
      modifies this`current
      ensures current == old(current) + 1
      ensures r == if old(current) < |source| then Ok(source[old(current)]) else Err(IndexOutOfBounds(old(current)))
    {
      var at := current;
      current := current + 1;
      if at < |source| {
        r := Ok(source[at]);
      } else {
        r := Err(IndexOutOfBounds(at));
      }
    }

    /** addToken: appends a token whose lexeme is the text from start to current. */
    method AddToken(kind: TokenType, literal: LitValue)
      requires Valid()
      modifies this`tokens, this`spans
      ensures tokens == old(tokens) + [Token(kind, source[start..current], literal, line)]
      ensures spans == old(spans) + [Span(start, current)]
    {
      tokens := tokens + [Token(kind, source[start..current], literal, line)];
      spans := spans + [Span(start, current)];
    }

    /** Lox.error(line, message), recorded instead of printed. */
    method Error(message: string)
      modifies this`diagnostics
      ensures diagnostics == old(diagnostics) + [ErrorAtLine(line, message)]
    {
      diagnostics := diagnostics + [ErrorAtLine(line, message)];
    }

    /** identifier(), entered with its first character consumed. */
    method Identifier()
      requires Valid() && current == start + 1
      modifies this`current, this`tokens, this`spans
      ensures var step := IdentifierStep(source, old(start), old(line));
        start == old(start) && Valid() && State() == Apply(old(AtLexemeStart()), step)
    {
      while IsAlphaNumeric(Peek())
        invariant start + 1 <= current <= |source|
        invariant IdentifierEnd(source, current) == IdentifierEnd(source, start + 1)
        modifies this`current
        decreases |source| - current
      {
        var ignored := Advance();
      }
      assert current == IdentifierEnd(source, start + 1);
      var text := source[start..current];
      var kind := if text in Keywords then Keywords[text] else IDENTIFIER;
      AddToken(kind, NilLit);
    }

    /** `while (isDigit(peek())) advance();` */
    method Digits()
      requires current <= |source|
      modifies this`current
      ensures current == DigitsEnd(source, old(current))
    {
      ghost var from := current;
      while IsDigit(Peek())
        invariant from <= current <= |source|
        invariant DigitsEnd(source, current) == DigitsEnd(source, from)
        decreases |source| - current
      {
        var ignored := Advance();
      }
    }

    /** number(), entered with a digit, or a '.' followed by a digit, consumed. */
    method Number() returns (crash: Option<Crash>)
      requires Valid() && current == start + 1
      requires IsDigit(source[start]) || source[start] == '.'
      modifies this`current, this`tokens, this`spans
      ensures var step := NumberStep(source, start, line);
        if step.Crashed? then crash == Some(step.crash)
        else crash.None? && State() == Apply(old(AtLexemeStart()), step)
    {
      ghost var lexemeStart := AtLexemeStart();
      ghost var p := current;
      if Peek() == '.' {
        var ignored := Advance();
      }
      assert current == if Matches(source, p, '.') then p + 1 else p;
      Digits();
      ghost var p2 := current;
      if Peek() == '.' && IsDigit(PeekNext()) {
        var ignored := Advance();
      }
      assert current == if Matches(source, p2, '.') && IsDigit(PeekAt(source, p2 + 1)) then p2 + 1 else p2;
      Digits();
      assert current == NumberEnd(source, start + 1);
      assert AtLexemeStart() == lexemeStart;
      crash := AddNumber();
    }

    /** The end of number(): Double.parseDouble on the lexeme, then addToken. */
    method AddNumber() returns (crash: Option<Crash>)
      requires Valid() && start < |source| && current == NumberEnd(source, start + 1)
      requires IsDigit(source[start]) || source[start] == '.'
      modifies this`tokens, this`spans
      ensures var step := NumberStep(source, start, line);
        if step.Crashed? then crash == Some(step.crash)
        else crash.None? && State() == Apply(old(AtLexemeStart()), step)
    {
      var text := source[start..current];
      NumberLexemeShaped(source, start);
      var value := ParseNumber(text);
      if value.None? {
        return Some(NumberFormat(text));
      }
      AddToken(NUMBER, NumLit(value.value));
      return None;
    }

    /** string(terminator), entered with the opening quote consumed. */
    method String(terminator: char)
      requires Valid() && current == start + 1
      modifies this`current, this`line, this`tokens, this`spans, this`diagnostics
      ensures Valid()
      ensures State() == Apply(old(AtLexemeStart()), StringStep(source, start, old(line), terminator))
    {
      ghost var before := AtLexemeStart();
      StringBody(terminator);
      ghost var q, reached := current, line;
      assert AtLexemeStart() == before.(line := reached);
      if IsAtEnd() {
        StringStepOpen(source, start, old(line), terminator, q, reached);
        Error(UnterminatedMessage);
        assert State() == Apply(before, Lexed(q, reached, None, Some(ErrorAtLine(reached, UnterminatedMessage))));
        return;
      }
      var ignored := Advance();
      StringStepClosed(source, start, old(line), terminator, q, reached);
      ghost var closed := ClosedString(source, start, q + 1, reached);
      AddString();
      ApplyIgnoresLine(before, reached, closed);
    }

    /** The loop of string(): up to the first unescaped terminator, counting newlines. */
    method StringBody(terminator: char)
      requires Valid() && current == start + 1
      modifies this`current, this`line
      ensures Valid()
      ensures current == StringEnd(source, start + 1, start + 1, terminator)
      ensures line == old(line) + NewlineCount(source[start + 1..current])
    {
      ghost var p := start + 1;
      var isEscapeActive := false;
      while (Peek() != terminator || isEscapeActive) && !IsAtEnd()
        invariant p <= current <= |source|
        invariant isEscapeActive == EscapeActive(source, p, current)
        invariant StringEnd(source, p, current, terminator) == StringEnd(source, p, p, terminator)
        invariant line == old(line) + NewlineCount(source[p..current])
        decreases |source| - current
      {
        NewlineCountStep(source, p, current);
        if Peek() == '\n' {
          line := line + 1;
        }
        isEscapeActive := !isEscapeActive && Peek() == '\\';
        var ignored := Advance();
      }
    }

    /** The end of string(): trims the quotes, unescapes the body and adds the token. */
    method AddString()
      requires Valid() && start + 2 <= current
      modifies this`tokens, this`spans, this`diagnostics
      ensures State() == Apply(old(AtLexemeStart()), ClosedString(source, start, current, line))
    {
      var value := source[start + 1..current - 1];
      var unescaped := StringUtils.UnescapeString(value);
      match unescaped {
        case Ok(v) => value := v;
        case Err(message) => Error(message);
      }
      AddToken(STRING, StrLit(value));
    }

    /** scanToken, with start == current at the first character of a lexeme. */
    method ScanToken() returns (crash: Option<Crash>)
      requires Valid() && start == current < |source|
      modifies this`current, this`line, this`tokens, this`spans, this`diagnostics
      ensures var step := ScanStep(source, old(current), old(line));
        if step.Crashed? then crash == Some(step.crash)
        else crash.None? && Valid() && State() == Apply(old(State()), step)
    {
      crash := None;
      var advanced := Advance();
      var c := advanced.value;
      var single := SingleCharKind(c);
      if single.Some? {
        AddToken(single.value, NilLit);
      } else if c == '.' {
        crash := Dot();
      } else if OperatorKinds(c).Some? {
        Operator();
      } else if c == '/' {
        crash := Slash();
      } else if IsWhitespace(c) {
      } else if c == '\n' {
        line := line + 1;
      } else if c == '"' || c == '\'' {
        String(c);
      } else if IsDigit(c) {
        crash := Number();
      } else if IsAlpha(c) {
        Identifier();
      } else {
        Error(UnexpectedMessage(c));
      }
    }

    /** The '!', '=', '<' and '>' cases of scanToken. */
    method Operator()
      requires Valid() && current == start + 1 && OperatorKinds(source[start]).Some?
      modifies this`current, this`tokens, this`spans
      ensures Valid() && State() == Apply(old(AtLexemeStart()), OperatorStep(source, start, line))
    {
      var (alone, withEqual) := OperatorKinds(source[start]).value;
      var m := Match('=');
      AddToken(if m then withEqual else alone, NilLit);
    }

    /** The '.' case of scanToken. */
    method Dot() returns (crash: Option<Crash>)
      requires Valid() && current == start + 1 && source[start] == '.'
      modifies this`current, this`tokens, this`spans
      ensures var step := DotStep(source, start, line);
        if step.Crashed? then crash == Some(step.crash)
        else crash.None? && Valid() && State() == Apply(old(AtLexemeStart()), step)
    {
      if IsDigit(Peek()) {
        crash := Number();
      } else {
        AddToken(DOT, NilLit);
        crash := None;
      }
    }

    /** The '/' case of scanToken. */
    method Slash() returns (crash: Option<Crash>)
      requires Valid() && current == start + 1
      modifies this`current, this`line, this`tokens, this`spans
      ensures var step := SlashStep(source, start, old(line));
        if step.Crashed? then crash == Some(step.crash)
        else crash.None? && Valid() && State() == Apply(old(AtLexemeStart()), step)
    {
      crash := None;
      var slash := Match('/');
      if slash {
        while Peek() != '\n' && !IsAtEnd()
          invariant start + 2 <= current <= |source|
          invariant LineCommentEnd(source, current) == LineCommentEnd(source, start + 2)
          modifies this`current
          decreases |source| - current
        {
          var ignored := Advance();
        }
      } else {
        var star := Match('*');
        if star {
          crash := BlockComment();
        } else {
          AddToken(SLASH, NilLit);
        }
      }
    }

    /** The block-comment branch of scanToken, entered with the opening pair consumed. */
    method BlockComment() returns (crash: Option<Crash>)
      requires Valid() && current == start + 2
      modifies this`current, this`line
      ensures var step := BlockCommentStep(source, old(start), old(line));
        start == old(start) &&
        if step.Crashed? then crash == Some(step.crash)
        else crash.None? && Valid() && State() == Apply(old(AtLexemeStart()), step)
    {
      BlockCommentBody();
      var first := Advance();
      if first.Err? {
        return Some(first.error);
      }
      var second := Advance();
      return None;
    }

    /** The loop of the block-comment branch: up to the first closing pair, counting newlines. */
    method BlockCommentBody()
      requires Valid() && current == start + 2
      modifies this`current, this`line
      ensures Valid() && start == old(start)
      ensures current == BlockCommentEnd(source, start + 2)
      ensures line == old(line) + NewlineCount(source[start + 2..current])
    {
      ghost var p := start + 2;
      while (Peek() != '*' || PeekNext() != '/') && !IsAtEnd()
        invariant p <= current <= |source|
        invariant BlockCommentEnd(source, current) == BlockCommentEnd(source, p)
        invariant line == old(line) + NewlineCount(source[p..current])
        modifies this`current, this`line
        decreases |source| - current
      {
        NewlineCountStep(source, p, current);
        if Peek() == '\n' {
          line := line + 1;
        }
        var ignored := Advance();
      }
    }

    /** scanTokens: scanToken until the end, then one EOF token. */
    method ScanTokens() returns (r: Result<seq<Token>, Crash>)
      requires Valid()
      modifies this
      ensures match FinishBatch(source, old(State()))
        case Err(c) => r == Err(c)
        case Ok(scanned) => r == Ok(tokens) && tokens == scanned.tokens && diagnostics == scanned.diagnostics
    {
      var crash := ScanAll();
      if crash.Some? {
        return Err(crash.value);
      }
      tokens := tokens + [EofToken(line)];
      return Ok(tokens);
    }

    /** scanTokensInteractive: as scanTokens, closing an unterminated statement with a SEMICOLON. */
    method ScanTokensInteractive() returns (r: Result<seq<Token>, Crash>)
      requires Valid()
      modifies this
      ensures match FinishInteractive(source, old(State()))
        case Err(c) => r == Err(c)
        case Ok(scanned) => r == Ok(tokens) && tokens == scanned.tokens && diagnostics == scanned.diagnostics
    {
      var crash := ScanAll();
      if crash.Some? {
        return Err(crash.value);
      }
      if |tokens| == 0 {
        return Err(IndexOutOfBounds(-1));
      }
      if !tokens[|tokens| - 1].kind.SEMICOLON? {
        tokens := tokens + [SemicolonToken(line)];
      }
      tokens := tokens + [EofToken(line)];
      return Ok(tokens);
    }

    /** The while loop shared by scanTokens and scanTokensInteractive. */
    method ScanAll() returns (crash: Option<Crash>)
      requires Valid()
      modifies this
      ensures match Run(source, old(State()))
        case Err(c) => crash == Some(c)
        case Ok(s) => crash.None? && Valid() && State() == s
    {
      while !IsAtEnd()
        invariant Valid()
        invariant Run(source, State()) == Run(source, old(State()))
        decreases |source| - current
      {
        start := current;
        crash := ScanToken();
        if crash.Some? {
          return;
        }
      }
      return None;
    }
  }
}
