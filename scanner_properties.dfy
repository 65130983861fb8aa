/**
 * Properties of the jlox scanner, stated over the functions that give the
 * meaning of scanToken (ScanStep) and of the scanning loop (Run).
 */
module ScannerProperties {
  import opened Common
  import opened Syntax
  import opened Scanner
  import StringUtils

  // ---------------------------------------------------------------------------
  // Counting newlines

  lemma {:induction false} NewlineCountAppend(a: string, b: string)
    ensures NewlineCount(a + b) == NewlineCount(a) + NewlineCount(b)
    decreases |b|
  {
    if b == [] {
      assert a + b == a;
    } else {
      var b' := b[..|b| - 1];
      assert (a + b)[..|a + b| - 1] == a + b';
      NewlineCountAppend(a, b');
    }
  }

  lemma NewlineCountSplit(s: string, i: nat, j: nat, k: nat)
    requires i <= j <= k <= |s|
    ensures NewlineCount(s[i..k]) == NewlineCount(s[i..j]) + NewlineCount(s[j..k])
  {
    assert s[i..k] == s[i..j] + s[j..k];
    NewlineCountAppend(s[i..j], s[j..k]);
  }

  lemma NoNewlineCount(s: string, i: nat, j: nat)
    requires i <= j <= |s|
    requires forall k :: i <= k < j ==> s[k] != '\n'
    ensures NewlineCount(s[i..j]) == 0
  {
    NewlineCountZero(s[i..j]);
    assert '\n' !in s[i..j];
  }

  // ---------------------------------------------------------------------------
  // One step

  /**
   * A step read from start is faithful when the line grows by the newlines
   * consumed and any token is the consumed text, is not EOF and carries the
   * line reached.
   */
  ghost predicate Faithful(src: string, start: nat, line: int, r: Step) {
    r.Lexed? ==>
      start <= r.next <= |src| &&
      r.line == line + NewlineCount(src[start..r.next]) &&
      (r.token.Some? ==>
        r.token.value.lexeme == src[start..r.next] &&
        !r.token.value.kind.EOF? &&
        r.token.value.line == r.line)
  }

  lemma EmitFaithful(src: string, start: nat, next: nat, line: int, kind: TokenType, literal: LitValue)
    requires start <= next <= |src| && !kind.EOF?
    requires forall k :: start <= k < next ==> src[k] != '\n'
    ensures Faithful(src, start, line, Emit(src, start, next, line, kind, literal))
  {
    NoNewlineCount(src, start, next);
  }

  lemma BlockCommentFaithful(src: string, start: nat, line: int)
    requires start + 2 <= |src| && src[start] == '/' && src[start + 1] == '*'
    ensures Faithful(src, start, line, BlockCommentStep(src, start, line))
  {
    var q := BlockCommentEnd(src, start + 2);
    if q < |src| {
      ClosedCommentLines(src, start, q);
    }
  }

  lemma ClosedCommentLines(src: string, start: nat, q: nat)
    requires start + 2 <= q && q + 2 <= |src|
    requires src[start] == '/' && src[start + 1] == '*' && src[q] == '*' && src[q + 1] == '/'
    ensures NewlineCount(src[start..q + 2]) == NewlineCount(src[start + 2..q])
  {
    NewlineCountSplit(src, start, start + 2, q + 2);
    NewlineCountSplit(src, start + 2, q, q + 2);
    NoNewlineCount(src, start, start + 2);
    NoNewlineCount(src, q, q + 2);
  }

  lemma StringFaithful(src: string, start: nat, line: int, c: char)
    requires start < |src| && src[start] == c && (c == '"' || c == '\'')
    ensures Faithful(src, start, line, StringStep(src, start, line, c))
  {
    var q := StringEnd(src, start + 1, start + 1, c);
    var reached := line + NewlineCount(src[start + 1..q]);
    QuotedLines(src, start, q);
    if q < |src| {
      StringStepClosed(src, start, line, c, q, reached);
      ClosedStringShape(src, start, q + 1, reached);
    }
  }

  /** Whether or not the body unescapes, the closed string emits a STRING token holding its source text. */
  lemma ClosedStringShape(src: string, start: nat, next: nat, line: int)
    requires start + 2 <= next <= |src|
    ensures var r := ClosedString(src, start, next, line);
      var body := src[start + 1..next - 1];
      r.Lexed? && r.next == next && r.line == line && r.token.Some? &&
      r.token.value.kind.STRING? && r.token.value.lexeme == src[start..next] && r.token.value.line == line &&
      (StringUtils.Unescape(body).Ok? ==>
        r.token.value.literal == StrLit(StringUtils.Unescape(body).value) && r.diagnostic.None?) &&
      (StringUtils.Unescape(body).Err? ==>
        r.token.value.literal == StrLit(body) && r.diagnostic == Some(ErrorAtLine(line, StringUtils.Unescape(body).error)))
  {
    match StringUtils.Unescape(src[start + 1..next - 1])
    case Ok(_) =>
    case Err(_) =>
  }

  lemma QuotedLines(src: string, start: nat, q: nat)
    requires start < q <= |src| && src[start] != '\n' && (q < |src| ==> src[q] != '\n')
    ensures NewlineCount(src[start..q]) == NewlineCount(src[start + 1..q])
    ensures q < |src| ==> NewlineCount(src[start..q + 1]) == NewlineCount(src[start + 1..q])
  {
    NoNewlineCount(src, start, start + 1);
    NewlineCountSplit(src, start, start + 1, q);
    if q < |src| {
      NoNewlineCount(src, q, q + 1);
      NewlineCountSplit(src, start, q, q + 1);
    }
  }

  lemma NumberFaithful(src: string, start: nat, line: int)
    requires start < |src| && (IsDigit(src[start]) || src[start] == '.')
    ensures Faithful(src, start, line, NumberStep(src, start, line))
  {
    var q := NumberEnd(src, start + 1);
    NumberLexemeShaped(src, start);
    forall k | start <= k < q
      ensures src[k] != '\n'
    {
      assert src[k] == src[start..q][k - start];
    }
    NoNewlineCount(src, start, q);
  }

  lemma SlashFaithful(src: string, start: nat, line: int)
    requires start < |src| && src[start] == '/'
    ensures Faithful(src, start, line, SlashStep(src, start, line))
  {
    if Matches(src, start + 1, '/') {
      NoNewlineCount(src, start, LineCommentEnd(src, start + 2));
    } else if Matches(src, start + 1, '*') {
      BlockCommentFaithful(src, start, line);
    } else {
      EmitFaithful(src, start, start + 1, line, SLASH, NilLit);
    }
  }

  /** Every step of scanToken is faithful. */
  lemma StepFacts(src: string, start: nat, line: int)
    requires start < |src|
    ensures Faithful(src, start, line, ScanStep(src, start, line))
  {
    var c := src[start];
    if SingleCharKind(c).Some? {
      EmitFaithful(src, start, start + 1, line, SingleCharKind(c).value, NilLit);
    } else if c == '.' {
      if IsDigit(PeekAt(src, start + 1)) {
        NumberFaithful(src, start, line);
      } else {
        EmitFaithful(src, start, start + 1, line, DOT, NilLit);
      }
    } else if OperatorKinds(c).Some? {
      var (alone, withEqual) := OperatorKinds(c).value;
      EmitFaithful(src, start, start + 1, line, alone, NilLit);
      if Matches(src, start + 1, '=') {
        EmitFaithful(src, start, start + 2, line, withEqual, NilLit);
      }
    } else if c == '/' {
      SlashFaithful(src, start, line);
    } else if IsWhitespace(c) || c == '\n' {
      assert src[start..start + 1] == [c];
    } else if c == '"' || c == '\'' {
      StringFaithful(src, start, line, c);
    } else if IsDigit(c) {
      NumberFaithful(src, start, line);
    } else if IsAlpha(c) {
      EmitFaithful(src, start, IdentifierEnd(src, start + 1), line,
                   IdentifierKind(src[start..IdentifierEnd(src, start + 1)]), NilLit);
    } else {
      assert src[start..start + 1] == [c];
    }
  }

  // ---------------------------------------------------------------------------
  // The scanning loop

  /** The invariant of the scanning loop: tokens, their source ranges, in order. */
  ghost predicate Consistent(src: string, s: ScanState) {
    && s.current <= |src|
    && |s.spans| == |s.tokens|
    && (forall i :: 0 <= i < |s.tokens| ==>
          s.spans[i].start < s.spans[i].stop <= s.current &&
          s.tokens[i].lexeme == src[s.spans[i].start..s.spans[i].stop] &&
          !s.tokens[i].kind.EOF?)
    && (forall i, j :: 0 <= i < j < |s.spans| ==> s.spans[i].stop <= s.spans[j].start)
  }

  lemma ApplyConsistent(src: string, s: ScanState)
    requires Consistent(src, s) && s.current < |src|
    requires ScanStep(src, s.current, s.line).Lexed?
    ensures var t := Apply(s, ScanStep(src, s.current, s.line));
      Consistent(src, t) && t.line == s.line + NewlineCount(src[s.current..t.current])
  {
    StepFacts(src, s.current, s.line);
  }

  /**
   * The loop keeps Consistent, runs to the end of the source, only appends,
   * and the final line is the starting line plus the newlines scanned.
   */
  lemma {:induction false} RunFacts(src: string, s: ScanState)
    requires Consistent(src, s)
    ensures Run(src, s).Ok? ==>
      var t := Run(src, s).value;
      Consistent(src, t) && t.current == |src| &&
      t.line == s.line + NewlineCount(src[s.current..]) &&
      s.tokens <= t.tokens && s.diagnostics <= t.diagnostics
    decreases |src| - s.current
  {
    if s.current == |src| {
      assert src[s.current..] == [];
    } else {
      var step := ScanStep(src, s.current, s.line);
      if step.Lexed? {
        var s' := Apply(s, step);
        ApplyConsistent(src, s);
        RunFacts(src, s');
        NewlineCountSplit(src, s.current, s'.current, |src|);
        assert src[s.current..] == src[s.current..|src|];
        assert src[s'.current..] == src[s'.current..|src|];
      }
    }
  }

  /**
   * scanTokens returns the scanned tokens followed by exactly one EOF token,
   * on the last line of the source.
   */
  lemma ScanTokensEndsWithEof(src: string)
    ensures ScanTokens(src).Ok? ==>
      var toks := ScanTokens(src).value.tokens;
      |toks| >= 1 &&
      toks[|toks| - 1] == EofToken(1 + NewlineCount(src)) &&
      forall i :: 0 <= i < |toks| - 1 ==> !toks[i].kind.EOF?
  {
    RunFacts(src, Initial);
    if Run(src, Initial).Ok? {
      var t := Run(src, Initial).value;
      assert src[0..] == src;
      assert t.line == 1 + NewlineCount(src);
      var toks := t.tokens + [EofToken(t.line)];
      assert ScanTokens(src).value.tokens == toks;
      assert forall i :: 0 <= i < |toks| - 1 ==> toks[i] == t.tokens[i];
    }
  }

  /**
   * Every token of scanTokens (but EOF) is the text of a source range, and the
   * ranges are non-empty, in source order, and do not overlap.
   */
  lemma TokensAreSourceRanges(src: string)
    ensures Run(src, Initial).Ok? ==>
      var t := Run(src, Initial).value;
      ScanTokens(src).Ok? &&
      ScanTokens(src).value.tokens == t.tokens + [EofToken(t.line)] &&
      |t.spans| == |t.tokens| &&
      (forall i :: 0 <= i < |t.tokens| ==>
         t.spans[i].start < t.spans[i].stop <= |src| &&
         t.tokens[i].lexeme == src[t.spans[i].start..t.spans[i].stop]) &&
      (forall i, j :: 0 <= i < j < |t.spans| ==> t.spans[i].stop <= t.spans[j].start)
  {
    RunFacts(src, Initial);
  }

  /** scanTokensInteractive ends in SEMICOLON, EOF, adding the SEMICOLON exactly when the last scanned token is not one. */
  lemma InteractiveSemicolon(src: string)
    ensures Run(src, Initial).Ok? ==>
      var t := Run(src, Initial).value.tokens;
      (t == [] <==> ScanTokensInteractive(src).Err?) &&
      (t != [] ==>
        var toks := ScanTokensInteractive(src).value.tokens;
        |toks| >= 2 &&
        toks[|toks| - 2].kind.SEMICOLON? && toks[|toks| - 1].kind.EOF? &&
        toks[..|t|] == t &&
        (|toks| == |t| + 2 <==> !t[|t| - 1].kind.SEMICOLON?))
  {
  }

  /** An empty source crashes scanTokensInteractive, while scanTokens returns a lone EOF. */
  lemma InteractiveEmptySource()
    ensures ScanTokensInteractive("") == Err(IndexOutOfBounds(-1))
    ensures ScanTokens("") == Ok(Scanned([EofToken(1)], []))
  {
    assert Run("", Initial) == Ok(Initial);
    assert [] + [EofToken(1)] == [EofToken(1)];
  }

  // ---------------------------------------------------------------------------
  // Individual lexemes

  /** '!', '=', '<' and '>' take a following '=' into a two-character token (longest match). */
  lemma LongestMatchOperators(src: string, start: nat, line: int)
    requires start < |src| && OperatorKinds(src[start]).Some?
    ensures var r := ScanStep(src, start, line);
      var (alone, withEqual) := OperatorKinds(src[start]).value;
      r.Lexed? && r.token.Some? && r.diagnostic.None? &&
      if start + 1 < |src| && src[start + 1] == '=' then
        r.next == start + 2 && r.token.value.kind == withEqual
      else
        r.next == start + 1 && r.token.value.kind == alone
  {
  }

  /**
   * An identifier takes the longest run of letters, digits and underscores,
   * and is a keyword exactly when the run is in the keyword table.
   */
  lemma IdentifiersAndKeywords(src: string, start: nat, line: int)
    requires start < |src| && IsAlpha(src[start])
    ensures var r := ScanStep(src, start, line);
      r.Lexed? && r.token.Some? && r.diagnostic.None? &&
      var text := r.token.value.lexeme;
      text == src[start..r.next] &&
      (forall k :: start <= k < r.next ==> IsAlphaNumeric(src[k])) &&
      (r.next == |src| || !IsAlphaNumeric(src[r.next])) &&
      (text in Keywords ==> r.token.value.kind == Keywords[text]) &&
      (text !in Keywords ==> r.token.value.kind.IDENTIFIER?)
  {
  }

  /** Whitespace and comments emit no token and report nothing. */
  lemma WhitespaceAndCommentsEmitNothing(src: string, start: nat, line: int)
    requires start < |src|
    requires IsWhitespace(src[start]) || src[start] == '\n' ||
             (src[start] == '/' && start + 1 < |src| && src[start + 1] in {'/', '*'})
    ensures var r := ScanStep(src, start, line);
      r.Lexed? ==> r.token.None? && r.diagnostic.None?
  {
  }

  /** A newline outside a string or comment moves to the next line. */
  lemma NewlineCounts(src: string, start: nat, line: int)
    requires start < |src| && src[start] == '\n'
    ensures ScanStep(src, start, line) == Lexed(start + 1, line + 1, None, None)
  {
  }

  /** An unexpected character is reported, emits nothing, and scanning resumes after it. */
  lemma UnexpectedCharacter(src: string, start: nat, line: int)
    requires start < |src|
    requires var c := src[start];
      SingleCharKind(c).None? && OperatorKinds(c).None? && !IsWhitespace(c) &&
      !IsDigit(c) && !IsAlpha(c) && c !in {'.', '/', '\n', '"', '\''}
    ensures ScanStep(src, start, line) ==
      Lexed(start + 1, line, None, Some(Diagnostic(Error, line, "", "Unexpected character '" + [src[start]] + "'.")))
  {
  }

  /** A block comment with no closing pair makes advance() run past the end. */
  lemma UnterminatedBlockComment(src: string, start: nat, line: int)
    requires start + 2 <= |src| && src[start] == '/' && src[start + 1] == '*'
    requires forall k :: start + 2 <= k < |src| ==> !ClosesComment(src, k)
    ensures ScanStep(src, start, line) == Crashed(IndexOutOfBounds(|src|))
  {
    BlockCommentEndIsFirst(src, start + 2);
    assert BlockCommentEnd(src, start + 2) == |src|;
  }

  /** A string with no unescaped terminator reports an error and emits nothing. */
  lemma UnterminatedString(src: string, start: nat, line: int)
    requires start < |src| && (src[start] == '"' || src[start] == '\'')
    requires forall k :: start + 1 <= k < |src| && src[k] == src[start] ==> EscapeActive(src, start + 1, k)
    ensures var r := ScanStep(src, start, line);
      r.Lexed? && r.next == |src| && r.token.None? &&
      r.diagnostic == Some(ErrorAtLine(r.line, UnterminatedMessage))
  {
    var q := StringEnd(src, start + 1, start + 1, src[start]);
    assert q == |src|;
  }

  /**
   * A string ends at the first terminator not preceded by an active escape,
   * and emits a STRING token holding the unescaped body, or the raw body
   * together with an error when unescaping fails.
   */
  lemma TerminatedString(src: string, start: nat, line: int, q: nat)
    requires start < q < |src| && (src[start] == '"' || src[start] == '\'')
    requires src[q] == src[start] && !EscapeActive(src, start + 1, q)
    requires forall k :: start + 1 <= k < q && src[k] == src[start] ==> EscapeActive(src, start + 1, k)
    ensures var r := ScanStep(src, start, line);
      var body := src[start + 1..q];
      r.Lexed? && r.next == q + 1 && r.token.Some? && r.token.value.kind.STRING? &&
      r.token.value.lexeme == src[start..q + 1] &&
      (StringUtils.Unescape(body).Ok? ==>
        r.token.value.literal == StrLit(StringUtils.Unescape(body).value) && r.diagnostic.None?) &&
      (StringUtils.Unescape(body).Err? ==>
        r.token.value.literal == StrLit(body) &&
        r.diagnostic == Some(ErrorAtLine(r.line, StringUtils.Unescape(body).error)))
  {
    var c := src[start];
    QuoteDispatch(src, start, line);
    StringEndFirst(src, start + 1, start + 1, c, q);
    var reached := line + NewlineCount(src[start + 1..q]);
    StringStepClosed(src, start, line, c, q, reached);
    ClosedStringShape(src, start, q + 1, reached);
  }

  /** A quote character starts string(), with itself as the terminator. */
  lemma QuoteDispatch(src: string, start: nat, line: int)
    requires start < |src| && (src[start] == '"' || src[start] == '\'')
    ensures ScanStep(src, start, line) == StringStep(src, start, line, src[start])
  {
  }

  lemma {:induction false} StringEndFirst(src: string, p: nat, k: nat, c: char, q: nat)
    requires p <= k <= q < |src|
    requires src[q] == c && !EscapeActive(src, p, q)
    requires forall j :: k <= j < q && src[j] == c ==> EscapeActive(src, p, j)
    ensures StringEnd(src, p, k, c) == q
    decreases q - k
  {
    if k < q {
      StringEndFirst(src, p, k + 1, c, q);
    }
  }

  // ---------------------------------------------------------------------------
  // Number literals

  /** Double.parseDouble rejects a lexeme exactly when it holds two dots. */
  lemma ParseNumberFails(lexeme: string)
    requires NumberShaped(lexeme)
    ensures ParseNumber(lexeme).None? <==>
      exists i, j :: 0 <= i < j < |lexeme| && lexeme[i] == '.' && lexeme[j] == '.'
  {
    var i := DotIndex(lexeme);
    if i < |lexeme| {
      var fraction := lexeme[i + 1..];
      if '.' in fraction {
        var k :| 0 <= k < |fraction| && fraction[k] == '.';
        assert lexeme[i + 1 + k] == '.';
      }
    }
  }

  /** number() takes `1.2.3` whole, and parseDouble then aborts the scan. */
  lemma TwoFractionsCrash()
    ensures ScanStep("1.2.3", 0, 1) == Crashed(NumberFormat("1.2.3"))
  {
    var src := "1.2.3";
    assert DigitsEnd(src, 4) == 5;
    assert DigitsEnd(src, 2) == 3;
    assert NumberEnd(src, 1) == 5;
    assert src[0..5] == src;
    assert DotIndex(src) == 1;
    assert src[2..][1] == '.';
  }

  /** number() takes `1..5` whole, and parseDouble then aborts the scan. */
  lemma DoubleDotCrash()
    ensures ScanStep("1..5", 0, 1) == Crashed(NumberFormat("1..5"))
  {
    var src := "1..5";
    assert DigitsEnd(src, 3) == 4;
    assert DigitsEnd(src, 2) == 2;
    assert NumberEnd(src, 1) == 4;
    assert src[0..4] == src;
    assert DotIndex(src) == 1;
    assert src[2..][0] == '.';
  }
}
