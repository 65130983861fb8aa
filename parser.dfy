/**
 * The jlox recursive-descent parser. The functions below give the meaning of
 * each grammar rule on a token list: the state is the cursor and the
 * diagnostics reported so far, and a thrown ParseError is the Thrown outcome,
 * carrying the state at the throw. The class Parser at the end is the
 * imperative parser, whose methods are proved to agree with these functions.
 */
module Parser {
  import opened Common
  import opened Syntax

  // ---------------------------------------------------------------------------
  // Cursor

  /** The scanner's output always ends with EOF; peek() relies on it. */
  predicate Terminated(ts: seq<Token>) {
    |ts| > 0 && ts[|ts| - 1].kind.EOF?
  }

  /** The index of the first EOF token at or after i, or |ts| when there is none. */
  function EofFrom(ts: seq<Token>, i: nat): (r: nat)
    requires i <= |ts|
    ensures i <= r <= |ts| && (r < |ts| ==> ts[r].kind.EOF?)
    decreases |ts| - i
  {
    if i == |ts| || ts[i].kind.EOF? then i else EofFrom(ts, i + 1)
  }

  function FirstEof(ts: seq<Token>): nat {
    EofFrom(ts, 0)
  }

  /** No token before FirstEof(ts) is an EOF. */
  lemma {:induction false} NoEofBefore(ts: seq<Token>, i: nat)
    requires i <= |ts|
    ensures forall k :: i <= k < EofFrom(ts, i) ==> !ts[k].kind.EOF?
    decreases |ts| - i
  {
    if i < |ts| && !ts[i].kind.EOF? {
      NoEofBefore(ts, i + 1);
    }
  }

  /** A cursor that is inside the list and has not passed an EOF token. */
  predicate ValidPos(ts: seq<Token>, p: nat) {
    p < |ts| && p <= FirstEof(ts)
  }

  datatype PState = PState(pos: nat, diags: seq<Diagnostic>)

  /** The result of a rule: a value and the state after it, or a ParseError thrown in that state. */
  datatype Parsed<T> = Parsed(value: T, st: PState) | Thrown(st: PState)

  /** The cursor only moves forward, stays valid, and diagnostics are only appended. */
  predicate Moves(ts: seq<Token>, a: PState, b: PState) {
    ValidPos(ts, b.pos) && a.pos <= b.pos && a.diags <= b.diags
  }

  /** Every ParseError is thrown after error() has reported it. */
  predicate ReportedIfThrown<T>(st: PState, r: Parsed<T>) {
    r.Thrown? ==> |st.diags| < |r.st.diags|
  }

  predicate AtEnd(ts: seq<Token>, p: nat)
    requires p < |ts|
  {
    ts[p].kind.EOF?
  }

  /** check(kind): false at the end. */
  predicate Check(ts: seq<Token>, p: nat, kind: TokenType)
    requires p < |ts|
  {
    !AtEnd(ts, p) && ts[p].kind == kind
  }

  /** match(kinds...) succeeds when check succeeds for one of the kinds. */
  predicate CheckAny(ts: seq<Token>, p: nat, kinds: set<TokenType>)
    requires p < |ts|
  {
    !AtEnd(ts, p) && ts[p].kind in kinds
  }

  /** advance(): a no-op on the EOF token. */
  function Next(ts: seq<Token>, st: PState): (r: PState)
    requires Terminated(ts) && ValidPos(ts, st.pos)
    ensures Moves(ts, st, r) && r.diags == st.diags
    ensures r.pos == if AtEnd(ts, st.pos) then st.pos else st.pos + 1
  {
    if AtEnd(ts, st.pos) then st else st.(pos := st.pos + 1)
  }

  // The messages the parser reports, word for word.
  const InvalidTarget := "Invalid assignment target."
  const ExpectColon := "Expect ':' following ternary operator '?'"
  const ExpectRightParen := "Expect ')' after expression."
  const ExpectOperand := "Expect expression before binary operator."
  const ExpectExpression := "Expect expression."
  const ExpectVariableName := "Expect variable name."
  const ExpectSemicolonAfterVar := "Expect ';' after variable declaration."
  const ExpectSemicolonAfterExpression := "Expect ';' after expression."
  const ExpectSemicolonAfterValue := "Expect ';' after value."
  const ExpectRightBrace := "Expect '}' after block."

  /** error(token, message): the diagnostic is reported, and the ParseError is returned to be thrown or not. */
  function Report(st: PState, t: Token, message: string): (r: PState)
    ensures r.pos == st.pos && r.diags == st.diags + [ErrorAt(t, message)]
  {
    st.(diags := st.diags + [ErrorAt(t, message)])
  }

  /** consume(kind, message). */
  function Expect(ts: seq<Token>, st: PState, kind: TokenType, message: string): (r: Parsed<Token>)
    requires Terminated(ts) && ValidPos(ts, st.pos)
    ensures Moves(ts, st, r.st) && ReportedIfThrown(st, r)
    ensures r.Parsed? <==> Check(ts, st.pos, kind)
    ensures r.Parsed? ==> r.value == ts[st.pos] && r.st == st.(pos := st.pos + 1)
    ensures r.Thrown? ==> r.st == Report(st, ts[st.pos], message)
  {
    if Check(ts, st.pos, kind) then Parsed(ts[st.pos], Next(ts, st))
    else Thrown(Report(st, ts[st.pos], message))
  }

  // ---------------------------------------------------------------------------
  // Expressions. Precedence levels, loosest first: 0 assignment, 1 conditional,
  // 2 comma, 3 equality, 4 comparison, 5 term, 6 factor, 7 unary, 8 primary.
  // Each rule's decreases pairs the tokens left with its rank in the call chain.

  /** The operators of the left-associative levels 2 to 6. */
  function Operators(level: nat): set<TokenType>
    requires 2 <= level <= 6
  {
    if level == 2 then {COMMA}
    else if level == 3 then {BANG_EQUAL, EQUAL_EQUAL}
    else if level == 4 then {GREATER, GREATER_EQUAL, LESS, LESS_EQUAL}
    else if level == 5 then {MINUS, PLUS}
    else {SLASH, STAR}
  }

  /** expression → assignment */
  function ParseExpression(ts: seq<Token>, st: PState): (r: Parsed<Expr>)
    requires Terminated(ts) && ValidPos(ts, st.pos)
    ensures Moves(ts, st, r.st) && ReportedIfThrown(st, r) && (r.Parsed? ==> r.st.pos > st.pos)
    decreases |ts| - st.pos, 40
  {
    ParseAssignment(ts, st)
  }

  /** assignment → conditional ( "=" assignment )? with the target checked afterwards. */
  function ParseAssignment(ts: seq<Token>, st: PState): (r: Parsed<Expr>)
    requires Terminated(ts) && ValidPos(ts, st.pos)
    ensures Moves(ts, st, r.st) && ReportedIfThrown(st, r) && (r.Parsed? ==> r.st.pos > st.pos)
    decreases |ts| - st.pos, 39
  {
    match ParseConditional(ts, st)
    case Thrown(s) => Thrown(s)
    case Parsed(target, s) =>
      if CheckAny(ts, s.pos, {EQUAL}) then
        var equals := ts[s.pos];
        match ParseAssignment(ts, Next(ts, s))
        case Thrown(s') => Thrown(s')
        case Parsed(value, s') =>
          if target.Variable? then Parsed(Assign(target.ref.id, target.ref.name, value), s')
          else Parsed(target, Report(s', equals, InvalidTarget))
      else Parsed(target, s)
  }

  /** conditional → comma ( "?" expression ":" expression )* */
  function ParseConditional(ts: seq<Token>, st: PState): (r: Parsed<Expr>)
    requires Terminated(ts) && ValidPos(ts, st.pos)
    ensures Moves(ts, st, r.st) && ReportedIfThrown(st, r) && (r.Parsed? ==> r.st.pos > st.pos)
    decreases |ts| - st.pos, 38
  {
    match ParseBinary(ts, st, 2)
    case Thrown(s) => Thrown(s)
    case Parsed(condition, s) => ConditionalLoop(ts, condition, s)
  }

  /** The while loop of conditional(), with the condition built so far. */
  function ConditionalLoop(ts: seq<Token>, condition: Expr, st: PState): (r: Parsed<Expr>)
    requires Terminated(ts) && ValidPos(ts, st.pos)
    ensures Moves(ts, st, r.st) && ReportedIfThrown(st, r)
    decreases |ts| - st.pos, 37
  {
    if Check(ts, st.pos, QUESTION_MARK) then
      match ParseTernaryParts(ts, Next(ts, st))
      case Thrown(s) => Thrown(s)
      case Parsed((consequent, rightOperator, alternative), s) =>
        ConditionalLoop(ts, Ternary(condition, consequent, alternative, ts[st.pos], rightOperator), s)
    else Parsed(condition, st)
  }

  /** One turn of conditional()'s loop: the ternary parts after the '?', then the loop again. */
  lemma ConditionalLoopStep(ts: seq<Token>, condition: Expr, st: PState)
    requires Terminated(ts) && ValidPos(ts, st.pos) && Check(ts, st.pos, QUESTION_MARK)
    ensures var p := ParseTernaryParts(ts, Next(ts, st));
      ConditionalLoop(ts, condition, st) ==
        if p.Thrown? then Thrown(p.st)
        else ConditionalLoop(ts, Ternary(condition, p.value.0, p.value.2, ts[st.pos], p.value.1), p.st)
  {
  }

  /** One iteration of conditional()'s loop after the '?': the consequent, the ':' and the alternative. */
  function ParseTernaryParts(ts: seq<Token>, st: PState): (r: Parsed<(Expr, Token, Expr)>)
    requires Terminated(ts) && ValidPos(ts, st.pos)
    ensures Moves(ts, st, r.st) && ReportedIfThrown(st, r) && (r.Parsed? ==> r.st.pos > st.pos)
    decreases |ts| - st.pos, 41
  {
    match ParseExpression(ts, st)
    case Thrown(s) => Thrown(s)
    case Parsed(consequent, s) =>
      match Expect(ts, s, COLON, ExpectColon)
      case Thrown(s') => Thrown(s')
      case Parsed(rightOperator, s') =>
        match ParseExpression(ts, s')
        case Thrown(s'') => Thrown(s'')
        case Parsed(alternative, s'') => Parsed((consequent, rightOperator, alternative), s'')
  }

  /** comma, equality, comparison, term and factor: operand ( op operand )* */
  function ParseBinary(ts: seq<Token>, st: PState, level: nat): (r: Parsed<Expr>)
    requires Terminated(ts) && ValidPos(ts, st.pos) && 2 <= level <= 6
    ensures Moves(ts, st, r.st) && ReportedIfThrown(st, r) && (r.Parsed? ==> r.st.pos > st.pos)
    decreases |ts| - st.pos, 30 - 2 * level
  {
    match ParseOperand(ts, st, level)
    case Thrown(s) => Thrown(s)
    case Parsed(left, s) => BinaryLoop(ts, level, left, s)
  }

  /** The next tighter level: the operand of a level-`level` operator. */
  function ParseOperand(ts: seq<Token>, st: PState, level: nat): (r: Parsed<Expr>)
    requires Terminated(ts) && ValidPos(ts, st.pos) && 2 <= level <= 6
    ensures Moves(ts, st, r.st) && ReportedIfThrown(st, r) && (r.Parsed? ==> r.st.pos > st.pos)
    decreases |ts| - st.pos, 29 - 2 * level
  {
    if level == 6 then ParseUnary(ts, st) else ParseBinary(ts, st, level + 1)
  }

  /** The while loop of a left-associative level, with the expression built so far. */
  function BinaryLoop(ts: seq<Token>, level: nat, left: Expr, st: PState): (r: Parsed<Expr>)
    requires Terminated(ts) && ValidPos(ts, st.pos) && 2 <= level <= 6
    ensures Moves(ts, st, r.st) && ReportedIfThrown(st, r)
    decreases |ts| - st.pos, 28 - 2 * level
  {
    if CheckAny(ts, st.pos, Operators(level)) then
      var operator := ts[st.pos];
      match ParseOperand(ts, Next(ts, st), level)
      case Thrown(s) => Thrown(s)
      case Parsed(right, s) => BinaryLoop(ts, level, Binary(left, operator, right), s)
    else Parsed(left, st)
  }

  /** One turn of a binary level's loop: the operator, its right operand, then the loop again. */
  lemma BinaryLoopStep(ts: seq<Token>, level: nat, left: Expr, st: PState)
    requires Terminated(ts) && ValidPos(ts, st.pos) && 2 <= level <= 6
    requires CheckAny(ts, st.pos, Operators(level))
    ensures var p := ParseOperand(ts, Next(ts, st), level);
      BinaryLoop(ts, level, left, st) ==
        if p.Thrown? then Thrown(p.st) else BinaryLoop(ts, level, Binary(left, ts[st.pos], p.value), p.st)
  {
  }

  /** unary → ( "!" | "-" ) unary | primary */
  function ParseUnary(ts: seq<Token>, st: PState): (r: Parsed<Expr>)
    requires Terminated(ts) && ValidPos(ts, st.pos)
    ensures Moves(ts, st, r.st) && ReportedIfThrown(st, r) && (r.Parsed? ==> r.st.pos > st.pos)
    decreases |ts| - st.pos, 10
  {
    if CheckAny(ts, st.pos, {BANG, MINUS}) then
      var operator := ts[st.pos];
      match ParseUnary(ts, Next(ts, st))
      case Thrown(s) => Thrown(s)
      case Parsed(right, s) => Parsed(Unary(operator, right), s)
    else ParsePrimary(ts, st)
  }

  /**
   * primary → literal | IDENTIFIER | "(" expression ")" | produceError.
   * A Variable node's identity is the position of its name token.
   */
  function ParsePrimary(ts: seq<Token>, st: PState): (r: Parsed<Expr>)
    requires Terminated(ts) && ValidPos(ts, st.pos)
    ensures Moves(ts, st, r.st) && ReportedIfThrown(st, r) && (r.Parsed? ==> r.st.pos > st.pos)
    decreases |ts| - st.pos, 9
  {
    var p := st.pos;
    if Check(ts, p, FALSE) then Parsed(Literal(BoolLit(false)), Next(ts, st))
    else if Check(ts, p, TRUE) then Parsed(Literal(BoolLit(true)), Next(ts, st))
    else if Check(ts, p, NIL) then Parsed(Literal(NilLit), Next(ts, st))
    else if CheckAny(ts, p, {NUMBER, STRING}) then Parsed(Literal(ts[p].literal), Next(ts, st))
    else if Check(ts, p, IDENTIFIER) then Parsed(Variable(VarRef(p, ts[p])), Next(ts, st))
    else if Check(ts, p, LEFT_PAREN) then ParseGrouping(ts, Next(ts, st))
    else ParseProduceError(ts, st)
  }

  /** "(" expression ")" with "(" already consumed. */
  function ParseGrouping(ts: seq<Token>, st: PState): (r: Parsed<Expr>)
    requires Terminated(ts) && ValidPos(ts, st.pos)
    ensures Moves(ts, st, r.st) && ReportedIfThrown(st, r) && (r.Parsed? ==> r.st.pos > st.pos)
    decreases |ts| - st.pos, 41
  {
    match ParseExpression(ts, st)
    case Thrown(s) => Thrown(s)
    case Parsed(inner, s) =>
      match Expect(ts, s, RIGHT_PAREN, ExpectRightParen)
      case Thrown(s') => Thrown(s')
      case Parsed(_, s') => Parsed(Grouping(inner), s')
  }

  /**
   * The error production: a binary operator with no left operand is reported,
   * its right operand is parsed and dropped, and the error is thrown.
   */
  function ParseProduceError(ts: seq<Token>, st: PState): (r: Parsed<Expr>)
    requires Terminated(ts) && ValidPos(ts, st.pos)
    ensures Moves(ts, st, r.st) && ReportedIfThrown(st, r) && r.Thrown?
    decreases |ts| - st.pos, 8
  {
    var p := st.pos;
    if !AtEnd(ts, p) && IsBinaryOperator(ts[p].kind) then
      var reported := Report(Next(ts, st), ts[p], ExpectOperand);
      Thrown(ParseExpression(ts, reported).st)
    else Thrown(Report(st, ts[p], ExpectExpression))
  }

  // ---------------------------------------------------------------------------
  // Statements

  /** The token kinds before which synchronize() stops. */
  const StatementStarts: set<TokenType> := {CLASS, FUN, VAR, FOR, IF, WHILE, PRINT, RETURN}

  /** synchronize() stops at p: at EOF, just after a ';', or before a statement keyword. */
  predicate Boundary(ts: seq<Token>, p: nat)
    requires 1 <= p < |ts|
  {
    AtEnd(ts, p) || ts[p - 1].kind.SEMICOLON? || ts[p].kind in StatementStarts
  }

  /** The loop of synchronize(): skip to the first boundary. */
  function SyncLoop(ts: seq<Token>, p: nat): (q: nat)
    requires Terminated(ts) && ValidPos(ts, p) && 1 <= p
    ensures p <= q && ValidPos(ts, q) && Boundary(ts, q)
    ensures forall k :: p <= k < q ==> !Boundary(ts, k)
    decreases |ts| - p
  {
    if Boundary(ts, p) then p else SyncLoop(ts, p + 1)
  }

  /**
   * synchronize(): one advance(), then skip to a boundary. The advance() reads
   * the previous token, so the cursor is not on an EOF at position 0.
   */
  function SyncPoint(ts: seq<Token>, p: nat): (q: nat)
    requires Terminated(ts) && ValidPos(ts, p) && (p > 0 || !AtEnd(ts, p))
    ensures ValidPos(ts, q) && p <= q && (!AtEnd(ts, p) ==> p < q)
  {
    SyncLoop(ts, if AtEnd(ts, p) then p else p + 1)
  }

  /**
   * declaration → varDecl | statement; a ParseError is caught here, the parser
   * resynchronises and the declaration is null (Absent).
   */
  function ParseDeclaration(ts: seq<Token>, st: PState): (r: (Stmt, PState))
    requires Terminated(ts) && ValidPos(ts, st.pos) && !AtEnd(ts, st.pos)
    ensures Moves(ts, st, r.1) && r.1.pos > st.pos
    decreases |ts| - st.pos, 50
  {
    var attempt :=
      if CheckAny(ts, st.pos, {VAR}) then ParseVarDeclaration(ts, Next(ts, st))
      else ParseStatement(ts, st);
    match attempt
    case Parsed(s, after) => (s, after)
    case Thrown(after) => (Absent, after.(pos := SyncPoint(ts, after.pos)))
  }

  /** varDecl → "var" IDENTIFIER ( "=" expression )? ";" with "var" already consumed. */
  function ParseVarDeclaration(ts: seq<Token>, st: PState): (r: Parsed<Stmt>)
    requires Terminated(ts) && ValidPos(ts, st.pos)
    ensures Moves(ts, st, r.st) && ReportedIfThrown(st, r) && (r.Parsed? ==> r.st.pos > st.pos)
    decreases |ts| - st.pos, 45
  {
    match Expect(ts, st, IDENTIFIER, ExpectVariableName)
    case Thrown(s) => Thrown(s)
    case Parsed(name, s) =>
      var init: Parsed<Option<Expr>> :=
        if CheckAny(ts, s.pos, {EQUAL}) then
          match ParseExpression(ts, Next(ts, s))
          case Thrown(s') => Thrown(s')
          case Parsed(e, s') => Parsed(Some(e), s')
        else Parsed(None, s);
      match init
      case Thrown(s') => Thrown(s')
      case Parsed(initializer, s') =>
        match Expect(ts, s', SEMICOLON, ExpectSemicolonAfterVar)
        case Thrown(s'') => Thrown(s'')
        case Parsed(_, s'') => Parsed(Var(name, initializer), s'')
  }

  /** statement → printStmt | block | exprStmt */
  function ParseStatement(ts: seq<Token>, st: PState): (r: Parsed<Stmt>)
    requires Terminated(ts) && ValidPos(ts, st.pos)
    ensures Moves(ts, st, r.st) && ReportedIfThrown(st, r) && (r.Parsed? ==> r.st.pos > st.pos)
    decreases |ts| - st.pos, 49
  {
    if CheckAny(ts, st.pos, {PRINT}) then ParsePrintStatement(ts, Next(ts, st))
    else if CheckAny(ts, st.pos, {LEFT_BRACE}) then ParseBlockStatement(ts, Next(ts, st))
    else ParseExpressionStatement(ts, st)
  }

  /** new Stmt.Block(block()) with "{" already consumed. */
  function ParseBlockStatement(ts: seq<Token>, st: PState): (r: Parsed<Stmt>)
    requires Terminated(ts) && ValidPos(ts, st.pos)
    ensures Moves(ts, st, r.st) && ReportedIfThrown(st, r)
    decreases |ts| - st.pos, 53
  {
    match ParseBlock(ts, st)
    case Thrown(s) => Thrown(s)
    case Parsed(statements, s) => Parsed(Block(statements), s)
  }

  /** exprStmt → expression ";" */
  function ParseExpressionStatement(ts: seq<Token>, st: PState): (r: Parsed<Stmt>)
    requires Terminated(ts) && ValidPos(ts, st.pos)
    ensures Moves(ts, st, r.st) && ReportedIfThrown(st, r) && (r.Parsed? ==> r.st.pos > st.pos)
    decreases |ts| - st.pos, 48
  {
    match ParseExpression(ts, st)
    case Thrown(s) => Thrown(s)
    case Parsed(e, s) =>
      match Expect(ts, s, SEMICOLON, ExpectSemicolonAfterExpression)
      case Thrown(s') => Thrown(s')
      case Parsed(_, s') => Parsed(Expression(e), s')
  }

  /** printStmt → "print" expression ";" with "print" already consumed. */
  function ParsePrintStatement(ts: seq<Token>, st: PState): (r: Parsed<Stmt>)
    requires Terminated(ts) && ValidPos(ts, st.pos)
    ensures Moves(ts, st, r.st) && ReportedIfThrown(st, r) && (r.Parsed? ==> r.st.pos > st.pos)
    decreases |ts| - st.pos, 48
  {
    match ParseExpression(ts, st)
    case Thrown(s) => Thrown(s)
    case Parsed(e, s) =>
      match Expect(ts, s, SEMICOLON, ExpectSemicolonAfterValue)
      case Thrown(s') => Thrown(s')
      case Parsed(_, s') => Parsed(Print(e), s')
  }

  /** block → "{" declaration* "}" with "{" already consumed. */
  function ParseBlock(ts: seq<Token>, st: PState): (r: Parsed<seq<Stmt>>)
    requires Terminated(ts) && ValidPos(ts, st.pos)
    ensures Moves(ts, st, r.st) && ReportedIfThrown(st, r)
    decreases |ts| - st.pos, 52
  {
    var (statements, s) := BlockLoop(ts, [], st);
    match Expect(ts, s, RIGHT_BRACE, ExpectRightBrace)
    case Thrown(s') => Thrown(s')
    case Parsed(_, s') => Parsed(statements, s')
  }

  /** The loop of block(): declarations up to '}' or EOF. */
  function BlockLoop(ts: seq<Token>, acc: seq<Stmt>, st: PState): (r: (seq<Stmt>, PState))
    requires Terminated(ts) && ValidPos(ts, st.pos)
    ensures Moves(ts, st, r.1) && acc <= r.0
    ensures Check(ts, r.1.pos, RIGHT_BRACE) || AtEnd(ts, r.1.pos)
    decreases |ts| - st.pos, 51
  {
    if !Check(ts, st.pos, RIGHT_BRACE) && !AtEnd(ts, st.pos) then
      var (s, after) := ParseDeclaration(ts, st);
      BlockLoop(ts, acc + [s], after)
    else (acc, st)
  }

  /** The loop of parse(): one entry per declaration() call until EOF. */
  function ProgramLoop(ts: seq<Token>, acc: seq<Stmt>, st: PState): (r: (seq<Stmt>, PState))
    requires Terminated(ts) && ValidPos(ts, st.pos)
    ensures Moves(ts, st, r.1) && acc <= r.0 && AtEnd(ts, r.1.pos)
    decreases |ts| - st.pos
  {
    if !AtEnd(ts, st.pos) then
      var (s, after) := ParseDeclaration(ts, st);
      ProgramLoop(ts, acc + [s], after)
    else (acc, st)
  }

  /** parse(): the statements and the diagnostics reported on the way. */
  function Parse(ts: seq<Token>): (r: (seq<Stmt>, seq<Diagnostic>))
    requires Terminated(ts)
  {
    var (statements, st) := ProgramLoop(ts, [], PState(0, []));
    (statements, st.diags)
  }

  // ---------------------------------------------------------------------------
  // The imperative parser

  /** Reads a method's outcome (a value, or None when a ParseError propagates) as a Parsed value. */
  function Outcome<T>(r: Option<T>, st: PState): Parsed<T> {
    if r.Some? then Parsed(r.value, st) else Thrown(st)
  }

  class Parser {
    const tokens: seq<Token>
    var current: nat
    var diagnostics: seq<Diagnostic>

    ghost predicate Valid()
      reads this
    {
      Terminated(tokens) && ValidPos(tokens, current)
    }

    ghost function State(): PState
      reads this
    {
      PState(current, diagnostics)
    }

    constructor(tokens: seq<Token>)
      requires Terminated(tokens)
      ensures Valid() && this.tokens == tokens && State() == PState(0, [])
    {
      this.tokens := tokens;
      current := 0;
      diagnostics := [];
    }

    /** advance(), returning previous(); previous() needs a token before the cursor. */
    method Advance() returns (t: Token)
      requires Valid() && (current > 0 || !AtEnd(tokens, current))
      modifies this`current
      ensures Valid() && State() == Next(tokens, old(State()))
      ensures 0 < current && t == tokens[current - 1]
      ensures !AtEnd(tokens, old(current)) ==> t == tokens[old(current)]
    {
      if !AtEnd(tokens, current) {
        current := current + 1;
      }
      t := tokens[current - 1];
    }

    /** match(kinds...): advance over the current token when it has one of the kinds. */
    method Match(kinds: set<TokenType>) returns (matched: bool)
      requires Valid()
      modifies this`current
      ensures Valid() && matched == CheckAny(tokens, old(current), kinds)
      ensures current == if matched then old(current) + 1 else old(current)
    {
      matched := CheckAny(tokens, current, kinds);
      if matched {
        current := current + 1;
      }
    }

    /** error(token, message): report, and leave the throwing to the caller. */
    method Error(t: Token, message: string)
      modifies this`diagnostics
      ensures diagnostics == old(diagnostics) + [ErrorAt(t, message)]
    {
      diagnostics := diagnostics + [ErrorAt(t, message)];
    }

    method Consume(kind: TokenType, message: string) returns (r: Option<Token>)
      requires Valid()
      modifies this`current, this`diagnostics
      ensures Valid() && Expect(tokens, old(State()), kind, message) == Outcome(r, State())
    {
      if Check(tokens, current, kind) {
        var t := Advance();
        return Some(t);
      }
      Error(tokens[current], message);
      return None;
    }

    method Expression() returns (r: Option<Expr>)
      requires Valid()
      modifies this`current, this`diagnostics
      ensures Valid() && ParseExpression(tokens, old(State())) == Outcome(r, State())
      decreases |tokens| - current, 40
    {
      r := Assignment();
    }

    method Assignment() returns (r: Option<Expr>)
      requires Valid()
      modifies this`current, this`diagnostics
      ensures Valid() && ParseAssignment(tokens, old(State())) == Outcome(r, State())
      decreases |tokens| - current, 39
    {
      var target := Conditional();
      if target.None? {
        return None;
      }
      ghost var afterTarget := State();
      var isAssignment := Match({EQUAL});
      if isAssignment {
        var equals := tokens[current - 1];
        ghost var afterEquals := State();
        assert afterEquals == Next(tokens, afterTarget) && equals == tokens[afterTarget.pos];
        var value := Assignment();
        if value.None? {
          return None;
        }
        if target.value.Variable? {
          return Some(Expr.Assign(target.value.ref.id, target.value.ref.name, value.value));
        }
        ghost var afterValue := State();
        Error(equals, InvalidTarget);
        assert State() == Report(afterValue, equals, InvalidTarget);
      }
      return target;
    }

    method Conditional() returns (r: Option<Expr>)
      requires Valid()
      modifies this`current, this`diagnostics
      ensures Valid() && ParseConditional(tokens, old(State())) == Outcome(r, State())
      decreases |tokens| - current, 38
    {
      var first := BinaryLevel(2);
      if first.None? {
        return None;
      }
      var condition := first.value;
      while Check(tokens, current, QUESTION_MARK)
        invariant Valid()
        invariant ConditionalLoop(tokens, condition, State()) == ParseConditional(tokens, old(State()))
        decreases |tokens| - current
      {
        ghost var before := State();
        ConditionalLoopStep(tokens, condition, before);
        var leftOperator := Advance();
        assert leftOperator == tokens[before.pos];
        ghost var mid := State();
        assert mid == Next(tokens, before);
        var parts := TernaryParts();
        if parts.None? {
          return None;
        }
        assert ParseTernaryParts(tokens, mid) == Parsed(parts.value, State());
        var (consequent, colon, alternative) := parts.value;
        condition := Expr.Ternary(condition, consequent, alternative, leftOperator, colon);
      }
      return Some(condition);
    }

    /** The body of conditional()'s loop after the '?'. */
    method TernaryParts() returns (r: Option<(Expr, Token, Expr)>)
      requires Valid()
      modifies this`current, this`diagnostics
      ensures Valid() && ParseTernaryParts(tokens, old(State())) == Outcome(r, State())
      decreases |tokens| - current, 41
    {
      var consequent := Expression();
      if consequent.None? {
        return None;
      }
      var colon := Consume(COLON, ExpectColon);
      if colon.None? {
        return None;
      }
      var alternative := Expression();
      if alternative.None? {
        return None;
      }
      return Some((consequent.value, colon.value, alternative.value));
    }
    /** comma(), equality(), comparison(), term() and factor(): the level's loop of left-associative operators. */
    method BinaryLevel(level: nat) returns (r: Option<Expr>)
      requires Valid() && 2 <= level <= 6
      modifies this`current, this`diagnostics
      ensures Valid() && ParseBinary(tokens, old(State()), level) == Outcome(r, State())
      decreases |tokens| - current, 30 - 2 * level
    {
      var first := Operand(level);
      if first.None? {
        return None;
      }
      var left := first.value;
      while CheckAny(tokens, current, Operators(level))
        invariant Valid()
        invariant BinaryLoop(tokens, level, left, State()) == ParseBinary(tokens, old(State()), level)
        decreases |tokens| - current
      {
        ghost var before := State();
        BinaryLoopStep(tokens, level, left, before);
        var operator := Advance();
        assert operator == tokens[before.pos];
        ghost var mid := State();
        var right := Operand(level);
        if right.None? {
          return None;
        }
        assert ParseOperand(tokens, mid, level) == Parsed(right.value, State());
        left := Expr.Binary(left, operator, right.value);
      }
      return Some(left);
    }

    /** The call each level makes for its operands: the next level, or unary() under factor(). */
    method Operand(level: nat) returns (r: Option<Expr>)
      requires Valid() && 2 <= level <= 6
      modifies this`current, this`diagnostics
      ensures Valid() && ParseOperand(tokens, old(State()), level) == Outcome(r, State())
      decreases |tokens| - current, 29 - 2 * level
    {
      if level == 6 {
        r := Unary();
      } else {
        r := BinaryLevel(level + 1);
      }
    }

    method Unary() returns (r: Option<Expr>)
      requires Valid()
      modifies this`current, this`diagnostics
      ensures Valid() && ParseUnary(tokens, old(State())) == Outcome(r, State())
      decreases |tokens| - current, 10
    {
      if CheckAny(tokens, current, {BANG, MINUS}) {
        var operator := Advance();
        ghost var afterOperator := State();
        var right := Unary();
        assert ParseUnary(tokens, afterOperator) == Outcome(right, State());
        if right.None? {
          return None;
        }
        return Some(Expr.Unary(operator, right.value));
      }
      r := Primary();
    }

    method Primary() returns (r: Option<Expr>)
      requires Valid()
      modifies this`current, this`diagnostics
      ensures Valid() && ParsePrimary(tokens, old(State())) == Outcome(r, State())
      decreases |tokens| - current, 9
    {
      var p := current;
      if Check(tokens, p, FALSE) {
        var _ := Advance();
        return Some(Literal(BoolLit(false)));
      } else if Check(tokens, p, TRUE) {
        var _ := Advance();
        return Some(Literal(BoolLit(true)));
      } else if Check(tokens, p, NIL) {
        var _ := Advance();
        return Some(Literal(NilLit));
      } else if CheckAny(tokens, p, {NUMBER, STRING}) {
        var t := Advance();
        return Some(Literal(t.literal));
      } else if Check(tokens, p, IDENTIFIER) {
        var t := Advance();
        return Some(Variable(VarRef(p, t)));
      } else if Check(tokens, p, LEFT_PAREN) {
        var _ := Advance();
        r := Grouping();
        return;
      }
      r := ProduceError();
    }

    /** The parenthesised case of primary(), after the "(". */
    method Grouping() returns (r: Option<Expr>)
      requires Valid()
      modifies this`current, this`diagnostics
      ensures Valid() && ParseGrouping(tokens, old(State())) == Outcome(r, State())
      decreases |tokens| - current, 41
    {
      var inner := Expression();
      if inner.None? {
        return None;
      }
      var closing := Consume(RIGHT_PAREN, ExpectRightParen);
      if closing.None? {
        return None;
      }
      return Some(Expr.Grouping(inner.value));
    }

    /** produceError() always throws; it returns None after reporting. */
    method ProduceError() returns (r: Option<Expr>)
      requires Valid()
      modifies this`current, this`diagnostics
      ensures Valid() && ParseProduceError(tokens, old(State())) == Outcome(r, State()) && r.None?
      decreases |tokens| - current, 8
    {
      if !AtEnd(tokens, current) && IsBinaryOperator(tokens[current].kind) {
        ghost var start := State();
        var operator := Advance();
        Error(operator, ExpectOperand);
        ghost var reported := State();
        assert reported == Report(Next(tokens, start), tokens[start.pos], ExpectOperand);
        var ignored := Expression();
        assert ParseExpression(tokens, reported).st == State();
        return None;
      }
      Error(tokens[current], ExpectExpression);
      return None;
    }

    method Synchronize()
      requires Valid() && (current > 0 || !AtEnd(tokens, current))
      modifies this`current
      ensures Valid() && current == SyncPoint(tokens, old(current))
    {
      var ignored := Advance();
      while !AtEnd(tokens, current)
        invariant Valid() && 1 <= current
        invariant SyncLoop(tokens, current) == SyncPoint(tokens, old(current))
        decreases |tokens| - current
      {
        if tokens[current - 1].kind.SEMICOLON? {
          return;
        }
        if tokens[current].kind in StatementStarts {
          return;
        }
        ignored := Advance();
      }
    }

    /** declaration(): the statement, or Absent after resynchronising when a ParseError was thrown. */
    method Declaration() returns (s: Stmt)
      requires Valid() && !AtEnd(tokens, current)
      modifies this`current, this`diagnostics
      ensures Valid() && ParseDeclaration(tokens, old(State())) == (s, State())
      decreases |tokens| - current, 50
    {
      ghost var start := State();
      var attempt: Option<Stmt>;
      var isVar := Match({VAR});
      if isVar {
        ghost var afterVar := State();
        assert afterVar == Next(tokens, start);
        attempt := VarDeclaration();
        assert ParseVarDeclaration(tokens, afterVar) == Outcome(attempt, State());
      } else {
        attempt := Statement();
        assert ParseStatement(tokens, start) == Outcome(attempt, State());
      }
      if attempt.Some? {
        return attempt.value;
      }
      ghost var thrown := State();
      Synchronize();
      assert State() == thrown.(pos := SyncPoint(tokens, thrown.pos));
      return Absent;
    }

    method VarDeclaration() returns (r: Option<Stmt>)
      requires Valid()
      modifies this`current, this`diagnostics
      ensures Valid() && ParseVarDeclaration(tokens, old(State())) == Outcome(r, State())
      decreases |tokens| - current, 45
    {
      var name := Consume(IDENTIFIER, ExpectVariableName);
      if name.None? {
        return None;
      }
      var initializer: Option<Expr> := None;
      var hasInitializer := Match({EQUAL});
      if hasInitializer {
        var e := Expression();
        if e.None? {
          return None;
        }
        initializer := e;
      }
      var semicolon := Consume(SEMICOLON, ExpectSemicolonAfterVar);
      if semicolon.None? {
        return None;
      }
      return Some(Var(name.value, initializer));
    }

    method Statement() returns (r: Option<Stmt>)
      requires Valid()
      modifies this`current, this`diagnostics
      ensures Valid() && ParseStatement(tokens, old(State())) == Outcome(r, State())
      decreases |tokens| - current, 49
    {
      var isPrint := Match({PRINT});
      if isPrint {
        r := PrintStatement();
        return;
      }
      var isBlock := Match({LEFT_BRACE});
      if isBlock {
        r := BlockStatement();
        return;
      }
      r := ExpressionStatement();
    }

    method BlockStatement() returns (r: Option<Stmt>)
      requires Valid()
      modifies this`current, this`diagnostics
      ensures Valid() && ParseBlockStatement(tokens, old(State())) == Outcome(r, State())
      decreases |tokens| - current, 53
    {
      var statements := Block();
      if statements.None? {
        return None;
      }
      return Some(Stmt.Block(statements.value));
    }

    method Block() returns (r: Option<seq<Stmt>>)
      requires Valid()
      modifies this`current, this`diagnostics
      ensures Valid() && ParseBlock(tokens, old(State())) == Outcome(r, State())
      decreases |tokens| - current, 52
    {
      var statements: seq<Stmt> := [];
      while !Check(tokens, current, RIGHT_BRACE) && !AtEnd(tokens, current)
        invariant Valid()
        invariant BlockLoop(tokens, statements, State()) == BlockLoop(tokens, [], old(State()))
        decreases |tokens| - current
      {
        var s := Declaration();
        statements := statements + [s];
      }
      var closing := Consume(RIGHT_BRACE, ExpectRightBrace);
      if closing.None? {
        return None;
      }
      return Some(statements);
    }

    method ExpressionStatement() returns (r: Option<Stmt>)
      requires Valid()
      modifies this`current, this`diagnostics
      ensures Valid() && ParseExpressionStatement(tokens, old(State())) == Outcome(r, State())
      decreases |tokens| - current, 48
    {
      var e := Expression();
      if e.None? {
        return None;
      }
      var semicolon := Consume(SEMICOLON, ExpectSemicolonAfterExpression);
      if semicolon.None? {
        return None;
      }
      return Some(Stmt.Expression(e.value));
    }

    method PrintStatement() returns (r: Option<Stmt>)
      requires Valid()
      modifies this`current, this`diagnostics
      ensures Valid() && ParsePrintStatement(tokens, old(State())) == Outcome(r, State())
      decreases |tokens| - current, 48
    {
      var e := Expression();
      if e.None? {
        return None;
      }
      var semicolon := Consume(SEMICOLON, ExpectSemicolonAfterValue);
      if semicolon.None? {
        return None;
      }
      return Some(Print(e.value));
    }

    /** parse(): declarations until EOF. */
    method Parse() returns (statements: seq<Stmt>)
      requires Valid()
      modifies this`current, this`diagnostics
      ensures Valid() && ProgramLoop(tokens, [], old(State())) == (statements, State())
    {
      statements := [];
      while !AtEnd(tokens, current)
        invariant Valid()
        invariant ProgramLoop(tokens, statements, State()) == ProgramLoop(tokens, [], old(State()))
        decreases |tokens| - current
      {
        var s := Declaration();
        statements := statements + [s];
      }
    }
  }
}
