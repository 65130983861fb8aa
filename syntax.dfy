/**
 * Tokens, the abstract syntax tree and diagnostics of the jlox front end.
 * The AST is the union of the node kinds that the parser, the resolver and
 * the interpreter use; Java's null references become Option values, and the
 * null that a failed declaration leaves in a statement list is Stmt.Absent.
 */
module Syntax {
  import opened Common

  datatype TokenType =
    // single-character tokens (BREAK and CONTINUE are listed with them in the source)
    | LEFT_PAREN | RIGHT_PAREN | LEFT_BRACE | RIGHT_BRACE | COMMA | DOT | MINUS | PLUS
    | SEMICOLON | SLASH | STAR | BREAK | CONTINUE
    // ternary components
    | QUESTION_MARK | COLON
    // one- or two-character tokens
    | BANG | BANG_EQUAL | EQUAL | EQUAL_EQUAL | GREATER | GREATER_EQUAL | LESS | LESS_EQUAL
    // literals
    | IDENTIFIER | STRING | NUMBER
    // keywords
    | AND | CLASS | ELSE | FALSE | FUN | FOR | IF | NIL | OR | PRINT | RETURN | SUPER
    | THIS | TRUE | VAR | WHILE
    | EOF

  /** The token types the parser's error production treats as binary operators. */
  predicate IsBinaryOperator(t: TokenType) {
    t in {COMMA, EQUAL_EQUAL, BANG_EQUAL, LESS, LESS_EQUAL, GREATER, GREATER_EQUAL,
          MINUS, PLUS, SLASH, STAR}
  }

  /** A literal value carried by a token or a Literal node; NilLit is Java's null. */
  datatype LitValue = NilLit | BoolLit(b: bool) | NumLit(n: real) | StrLit(s: string)

  datatype Token = Token(kind: TokenType, lexeme: string, literal: LitValue, line: int)

  datatype Severity = Error | Warning

  /** One reported line: "[line <line>] <severity><where>: <message>". */
  datatype Diagnostic = Diagnostic(severity: Severity, line: int, where: string, message: string)

  /** Lox.error(line, message): no location text. */
  function ErrorAtLine(line: int, message: string): (d: Diagnostic)
    ensures d.severity == Error && d.line == line && d.where == "" && d.message == message
  {
    Diagnostic(Error, line, "", message)
  }

  /** Lox.error(token, message): " at end" for the EOF token, else the lexeme. */
  function ErrorAt(t: Token, message: string): (d: Diagnostic)
    ensures d.severity == Error && d.line == t.line && d.message == message
    ensures d.where == (if t.kind.EOF? then " at end" else " at '" + t.lexeme + "'")
  {
    Diagnostic(Error, t.line, if t.kind.EOF? then " at end" else " at '" + t.lexeme + "'", message)
  }

  /** Lox.warning(token, message). */
  function WarningAt(t: Token, message: string): (d: Diagnostic)
    ensures d.severity == Warning && d.line == t.line && d.message == message
    ensures d.where == " at '" + t.lexeme + "'"
  {
    Diagnostic(Warning, t.line, " at '" + t.lexeme + "'", message)
  }

  /** An Expr.Variable node: its identity (the key of the resolver's distance table) and name. */
  datatype VarRef = VarRef(id: nat, name: Token)

  datatype IncrementKind = PRE_INCREMENT | PRE_DECREMENT | POST_INCREMENT | POST_DECREMENT

  datatype Expr =
    | Assign(id: nat, name: Token, value: Expr)
    | Binary(left: Expr, operator: Token, right: Expr)
    | Call(callee: Expr, paren: Token, arguments: seq<Expr>)
    | Grouping(expression: Expr)
    | Literal(lit: LitValue)
    | Logical(left: Expr, operator: Token, right: Expr)
    | Unary(operator: Token, right: Expr)
    | Ternary(left: Expr, center: Expr, right: Expr, leftOperator: Token, rightOperator: Token)
    | Variable(ref: VarRef)
    | Increment(identifier: VarRef, operator: Token, kind: IncrementKind)
    | Fun(keyword: Token, params: seq<Token>, body: seq<Stmt>)
    | Get(object: Expr, name: Token)
    | Set(object: Expr, name: Token, value: Expr)
    | This(id: nat, keyword: Token)
    | Super(id: nat, keyword: Token, methodName: Token)

  /** A named function declaration: a Stmt.Function or a method of a class. */
  datatype FunDecl = FunDecl(name: Token, params: seq<Token>, body: seq<Stmt>)

  /** One condition-body pair of an if-else chain (a Stmt.If inside a Stmt.IfElse). */
  datatype Branch = Branch(condition: Expr, body: Stmt)

  datatype Stmt =
    | Block(statements: seq<Stmt>)
    | Expression(expression: Expr)
    | Function(decl: FunDecl)
    | IfElse(ifBranches: seq<Branch>, elseBranch: Option<Stmt>)
    | If(condition: Expr, body: Stmt)
    | Print(expression: Expr)
    | Return(keyword: Token, value: Option<Expr>)
    | Var(name: Token, initializer: Option<Expr>)
    | While(condition: Expr, body: Stmt)
    | LoopKeyword(token: Token)
    | Class(name: Token, superclass: Option<VarRef>, methods: seq<FunDecl>)
    | Absent
}
