/**
 * What the tree-walking interpreter computes, as functions: evaluating an
 * expression or executing a statement in environment env of the arena gives
 * a completion and the arena afterwards. Java's exceptions are completions:
 * a RuntimeError, a Return or LoopInterrupt on its way out, and the
 * NullPointerException the code raises on a null operand or statement.
 * A fuel argument bounds recursion depth and loop iterations so that every
 * function terminates; running out of it is a completion of its own.
 */
module Evaluation {
  import opened Common
  import opened Syntax
  import opened Runtime
  import Util

  /** Why evaluation stopped early. NoVisitor stands for a node kind the interpreter has no visit method for. */
  datatype Signal =
    | Thrown(error: RuntimeError)
    | ReturnSignal(value: Value)
    | LoopSignal(token: Token)
    | NullPointer
    | NoVisitor
    | OutOfFuel

  datatype Completion = Normal(value: Value) | Abrupt(signal: Signal)

  /** A completion and the arena it leaves. */
  datatype Step = Step(completion: Completion, frames: seq<Frame>)

  /** The argument values of a call, or the signal that stopped their evaluation. */
  datatype Evaluated = Evaluated(values: seq<Value>, stopped: Option<Signal>, frames: seq<Frame>)

  // ---------------------------------------------------------------------------
  // A well-formed arena: linked, and every stored closure is one of its frames

  predicate ValueLive(v: Value, n: nat) {
    v.Function? ==> v.f.closure < n
  }

  predicate Wf(frames: seq<Frame>) {
    Linked(frames) &&
    forall i, name :: 0 <= i < |frames| && name in frames[i].values && frames[i].values[name].Bound? ==>
      ValueLive(frames[i].values[name].value, |frames|)
  }

  predicate Ready(frames: seq<Frame>, env: nat) {
    Wf(frames) && env < |frames|
  }

  /** b is a later state of arena a: well formed, no frame lost and no link changed. */
  predicate Grows(a: seq<Frame>, b: seq<Frame>) {
    Wf(b) && SameLinks(a, b)
  }

  predicate SignalLive(s: Signal, n: nat) {
    s.ReturnSignal? ==> ValueLive(s.value, n)
  }

  predicate CompletionLive(c: Completion, n: nat) {
    match c
    case Normal(v) => ValueLive(v, n)
    case Abrupt(s) => SignalLive(s, n)
  }

  predicate StepOk(frames: seq<Frame>, r: Step) {
    Grows(frames, r.frames) && CompletionLive(r.completion, |r.frames|)
  }

  predicate EvaluatedOk(frames: seq<Frame>, r: Evaluated) {
    Grows(frames, r.frames) &&
    (forall k :: 0 <= k < |r.values| ==> ValueLive(r.values[k], |r.frames|)) &&
    (r.stopped.Some? ==> SignalLive(r.stopped.value, |r.frames|))
  }

  lemma DefineOk(frames: seq<Frame>, env: nat, name: string, v: Value)
    requires Ready(frames, env) && ValueLive(v, |frames|)
    ensures Grows(frames, DefineIn(frames, env, name, v)) && |DefineIn(frames, env, name, v)| == |frames|
  {
    DefineThenGet(frames, env, Token(IDENTIFIER, name, NilLit, 0), v);
  }

  lemma DeclareOk(frames: seq<Frame>, env: nat, name: string)
    requires Ready(frames, env)
    ensures Grows(frames, DeclareIn(frames, env, name)) && |DeclareIn(frames, env, name)| == |frames|
  {
    DeclareThenGet(frames, env, Token(IDENTIFIER, name, NilLit, 0));
  }

  lemma AssignOk(frames: seq<Frame>, env: nat, name: Token, v: Value)
    requires Ready(frames, env) && ValueLive(v, |frames|)
    ensures var r := AssignIn(frames, env, name, v);
      r.Ok? ==> Grows(frames, r.value) && |r.value| == |frames|
  {
    AssignThenGet(frames, env, name, v);
  }

  lemma AllocateOk(frames: seq<Frame>, env: nat)
    requires Ready(frames, env)
    ensures var r := Allocate(frames, env);
      Grows(frames, r) && Ready(r, |frames|) && |r| == |frames| + 1
  {
  }

  lemma StillLive(vs: seq<Value>, n: nat, m: nat)
    requires n <= m && forall k :: 0 <= k < |vs| ==> ValueLive(vs[k], n)
    ensures forall k :: 0 <= k < |vs| ==> ValueLive(vs[k], m)
  {
    forall k | 0 <= k < |vs|
      ensures ValueLive(vs[k], m)
    {
      assert ValueLive(vs[k], n);
    }
  }

  lemma LookupLive(frames: seq<Frame>, env: nat, name: Token)
    requires Ready(frames, env)
    ensures Lookup(frames, env, name).Ok? ==> ValueLive(Lookup(frames, env, name).value, |frames|)
  {
  }

  // ---------------------------------------------------------------------------
  // Values

  function LiteralValue(lit: LitValue): (v: Value)
    ensures lit.NilLit? <==> v.Nil?
    ensures !v.Function?
  {
    match lit
    case NilLit => Nil
    case BoolLit(b) => Bool(b)
    case NumLit(n) => Num(n)
    case StrLit(s) => Str(s)
  }

  /** isTruthy. */
  predicate IsTruthy(v: Value) {
    match v
    case Nil => false
    case Bool(b) => b
    case _ => true
  }

  /** isEqual: null equals only null; otherwise equals(). */
  predicate IsEqual(a: Value, b: Value) {
    if a.Nil? && b.Nil? then true
    else if a.Nil? then false
    else a == b
  }

  /** checkNumberOperand: nothing for a number; null's toString() is a NullPointerException. */
  function CheckNumberOperand(operator: Token, operand: Value): (r: Option<Signal>)
    ensures r.None? <==> operand.Num?
  {
    if operand.Num? then None
    else if operand.Nil? then Some(NullPointer)
    else Some(Thrown(RuntimeError(operator, OperandNotNumber(Util.ToString(operand).value))))
  }

  /** checkNumberOperands: the left operand is checked first. */
  function CheckNumberOperands(operator: Token, left: Value, right: Value): (r: Option<Signal>)
    ensures r.None? <==> left.Num? && right.Num?
  {
    if CheckNumberOperand(operator, left).Some? then CheckNumberOperand(operator, left)
    else CheckNumberOperand(operator, right)
  }

  predicate IsNumberOperator(kind: TokenType) {
    kind in {MINUS, SLASH, STAR, GREATER, GREATER_EQUAL, LESS, LESS_EQUAL}
  }

  /** The arithmetic and comparison cases of visitBinaryExpr, once both operands are numbers. */
  function NumberOp(operator: Token, a: real, b: real): Completion
    requires IsNumberOperator(operator.kind)
  {
    match operator.kind
    case MINUS => Normal(Num(a - b))
    case SLASH => if b == 0.0 then Abrupt(Thrown(RuntimeError(operator, DivisionByZero))) else Normal(Num(a / b))
    case STAR => Normal(Num(a * b))
    case GREATER => Normal(Bool(a > b))
    case GREATER_EQUAL => Normal(Bool(a >= b))
    case LESS => Normal(Bool(a < b))
    case LESS_EQUAL => Normal(Bool(a <= b))
  }

  /** The switch of visitBinaryExpr over two evaluated operands. */
  function BinaryOp(text: real -> string, operator: Token, left: Value, right: Value): Completion {
    if IsNumberOperator(operator.kind) then
      match CheckNumberOperands(operator, left, right)
      case Some(s) => Abrupt(s)
      case None => NumberOp(operator, left.n, right.n)
    else if operator.kind.PLUS? then
      if left.Num? && right.Num? then Normal(Num(left.n + right.n))
      else if left.Str? || right.Str? then Normal(Str(Util.Stringify(left, text) + Util.Stringify(right, text)))
      else Abrupt(Thrown(RuntimeError(operator, PlusOperands)))
    else if operator.kind.BANG_EQUAL? then Normal(Bool(!IsEqual(left, right)))
    else if operator.kind.EQUAL_EQUAL? then Normal(Bool(IsEqual(left, right)))
    else if operator.kind.COMMA? then Normal(right)
    else Abrupt(Thrown(RuntimeError(operator, UnknownBinaryOperator(operator.lexeme))))
  }

  /** The switch of visitUnaryExpr over an evaluated operand. */
  function UnaryOp(operator: Token, right: Value): Completion {
    if operator.kind.MINUS? then
      match CheckNumberOperand(operator, right)
      case Some(s) => Abrupt(s)
      case None => Normal(Num(-right.n))
    else if operator.kind.BANG? then Normal(Bool(!IsTruthy(right)))
    else Abrupt(Thrown(RuntimeError(operator, UnknownUnaryOperator(operator.lexeme))))
  }

  /** The token visitIfStmt blames: a fresh IF token on line 0. */
  function BareIf(): RuntimeError {
    RuntimeError(Token(IF, "if", NilLit, 0), BareIfStatement)
  }

  function TernaryError(leftOperator: Token, rightOperator: Token): RuntimeError {
    RuntimeError(leftOperator, UnknownTernaryPair(leftOperator.lexeme, rightOperator.lexeme))
  }

  function FromLookup(r: Result<Value, RuntimeError>): Completion {
    match r
    case Ok(v) => Normal(v)
    case Err(e) => Abrupt(Thrown(e))
  }

  /** A statement's completion: a normal one carries no value. */
  function Discard(s: Step): Step {
    if s.completion.Normal? then Step(Normal(Nil), s.frames) else s
  }

  // ---------------------------------------------------------------------------
  // Expressions

  function Eval(fuel: nat, text: real -> string, frames: seq<Frame>, env: nat, e: Expr): (r: Step)
    requires Ready(frames, env)
    ensures StepOk(frames, r)
    decreases fuel, 0, 0
  {
    if fuel == 0 then Step(Abrupt(OutOfFuel), frames)
    else Accept(fuel - 1, text, frames, env, e)
  }

  /** expr.accept(this): the visit method for the node's kind, with one unit of fuel spent. */
  function Accept(fuel: nat, text: real -> string, frames: seq<Frame>, env: nat, e: Expr): (r: Step)
    requires Ready(frames, env)
    ensures StepOk(frames, r)
    decreases fuel, 5, 0
  {
    match e
    case Literal(lit) => Step(Normal(LiteralValue(lit)), frames)
    case Grouping(inner) => Eval(fuel, text, frames, env, inner)
    case Variable(ref) =>
      LookupLive(frames, env, ref.name);
      Step(FromLookup(Lookup(frames, env, ref.name)), frames)
    case Assign(_, name, value) => EvalAssign(fuel, text, frames, env, name, value)
    case Unary(operator, right) => EvalUnary(fuel, text, frames, env, operator, right)
    case Binary(left, operator, right) => EvalBinary(fuel, text, frames, env, left, operator, right)
    case Logical(left, operator, right) => EvalLogical(fuel, text, frames, env, left, operator, right)
    case Ternary(left, center, right, leftOperator, rightOperator) =>
      EvalTernary(fuel, text, frames, env, left, center, right, leftOperator, rightOperator)
    case Increment(identifier, _, kind) => IncrementStep(frames, env, identifier, kind)
    case Call(callee, paren, arguments) => EvalCall(fuel, text, frames, env, callee, paren, arguments)
    case _ => Step(Abrupt(NoVisitor), frames)
  }

  /** environment.assign(name, value) after the value is known: the value, or the error assign throws. */
  function Assigned(frames: seq<Frame>, env: nat, name: Token, v: Value): (r: Step)
    requires Ready(frames, env) && ValueLive(v, |frames|)
    ensures StepOk(frames, r)
  {
    AssignOk(frames, env, name, v);
    match AssignIn(frames, env, name, v)
    case Err(err) => Step(Abrupt(Thrown(err)), frames)
    case Ok(fs) => Step(Normal(v), fs)
  }

  function EvalAssign(fuel: nat, text: real -> string, frames: seq<Frame>, env: nat, name: Token, value: Expr): (r: Step)
    requires Ready(frames, env)
    ensures StepOk(frames, r)
    decreases fuel, 1, 0
  {
    var s := Eval(fuel, text, frames, env, value);
    if s.completion.Abrupt? then s
    else Assigned(s.frames, env, name, s.completion.value)
  }

  function EvalUnary(fuel: nat, text: real -> string, frames: seq<Frame>, env: nat, operator: Token, right: Expr): (r: Step)
    requires Ready(frames, env)
    ensures StepOk(frames, r)
    decreases fuel, 1, 0
  {
    var s := Eval(fuel, text, frames, env, right);
    if s.completion.Abrupt? then s
    else Step(UnaryOp(operator, s.completion.value), s.frames)
  }

  function EvalBinary(fuel: nat, text: real -> string, frames: seq<Frame>, env: nat, left: Expr, operator: Token, right: Expr): (r: Step)
    requires Ready(frames, env)
    ensures StepOk(frames, r)
    decreases fuel, 1, 0
  {
    var l := Eval(fuel, text, frames, env, left);
    if l.completion.Abrupt? then l
    else
      var r := Eval(fuel, text, l.frames, env, right);
      if r.completion.Abrupt? then r
      else Step(BinaryOp(text, operator, l.completion.value, r.completion.value), r.frames)
  }

  function EvalLogical(fuel: nat, text: real -> string, frames: seq<Frame>, env: nat, left: Expr, operator: Token, right: Expr): (r: Step)
    requires Ready(frames, env)
    ensures StepOk(frames, r)
    decreases fuel, 1, 0
  {
    var l := Eval(fuel, text, frames, env, left);
    if l.completion.Abrupt? then l
    else ShortCircuit(fuel, text, l.frames, env, l.completion.value, operator, right)
  }

  /** The rest of visitLogicalExpr once the left operand is known: it decides, or the right one is evaluated. */
  function ShortCircuit(fuel: nat, text: real -> string, frames: seq<Frame>, env: nat, left: Value, operator: Token, right: Expr): (r: Step)
    requires Ready(frames, env) && ValueLive(left, |frames|)
    ensures StepOk(frames, r)
    decreases fuel, 0, 1
  {
    if operator.kind.OR? then
      if IsTruthy(left) then Step(Normal(left), frames) else Eval(fuel, text, frames, env, right)
    else if operator.kind.AND? then
      if !IsTruthy(left) then Step(Normal(left), frames) else Eval(fuel, text, frames, env, right)
    else Step(Abrupt(Thrown(RuntimeError(operator, InvalidLogicalOperator))), frames)
  }

  function EvalTernary(fuel: nat, text: real -> string, frames: seq<Frame>, env: nat,
                       left: Expr, center: Expr, right: Expr, leftOperator: Token, rightOperator: Token): (r: Step)
    requires Ready(frames, env)
    ensures StepOk(frames, r)
    decreases fuel, 1, 0
  {
    if leftOperator.kind.QUESTION_MARK? && rightOperator.kind.COLON? then
      var c := Eval(fuel, text, frames, env, left);
      if c.completion.Abrupt? then c
      else Choose(fuel, text, c.frames, env, c.completion.value, center, right)
    else
      Step(Abrupt(Thrown(TernaryError(leftOperator, rightOperator))), frames)
  }

  /** The conditional once its condition is known: exactly one of the two branches is evaluated. */
  function Choose(fuel: nat, text: real -> string, frames: seq<Frame>, env: nat, condition: Value, center: Expr, right: Expr): (r: Step)
    requires Ready(frames, env)
    ensures StepOk(frames, r)
    decreases fuel, 0, 1
  {
    if IsTruthy(condition) then Eval(fuel, text, frames, env, center)
    else Eval(fuel, text, frames, env, right)
  }

  /** visitIncrementExpr: read the variable, check it holds a whole number, write back value ± 1. */
  function IncrementStep(frames: seq<Frame>, env: nat, identifier: VarRef, kind: IncrementKind): (r: Step)
    requires Ready(frames, env)
    ensures StepOk(frames, r)
  {
    match Lookup(frames, env, identifier.name)
    case Err(err) => Step(Abrupt(Thrown(err)), frames)
    case Ok(v) =>
      if !v.Num? || !Util.IsInteger(v.n) then
        Step(Abrupt(Thrown(RuntimeError(identifier.name, IncrementNonInteger))), frames)
      else
        match kind
        case POST_DECREMENT => WriteBack(frames, env, identifier.name, v.n - 1.0, v.n)
        case POST_INCREMENT => WriteBack(frames, env, identifier.name, v.n + 1.0, v.n)
        case PRE_DECREMENT => WriteBack(frames, env, identifier.name, v.n - 1.0, v.n - 1.0)
        case PRE_INCREMENT => WriteBack(frames, env, identifier.name, v.n + 1.0, v.n + 1.0)
  }

  /** Assign written to the variable and yield result. */
  function WriteBack(frames: seq<Frame>, env: nat, name: Token, written: real, result: real): (r: Step)
    requires Ready(frames, env)
    ensures StepOk(frames, r)
  {
    var s := Assigned(frames, env, name, Num(written));
    if s.completion.Abrupt? then s else Step(Normal(Num(result)), s.frames)
  }

  function EvalCall(fuel: nat, text: real -> string, frames: seq<Frame>, env: nat,
                    callee: Expr, paren: Token, arguments: seq<Expr>): (r: Step)
    requires Ready(frames, env)
    ensures StepOk(frames, r)
    decreases fuel, 4, 0
  {
    var c := Eval(fuel, text, frames, env, callee);
    if c.completion.Abrupt? then c
    else
      var a := EvalArgs(fuel, text, c.frames, env, arguments);
      if a.stopped.Some? then Step(Abrupt(a.stopped.value), a.frames)
      else Invoke(fuel, text, a.frames, c.completion.value, paren, a.values)
  }

  /** A value followed by the rest of the arguments, unless their evaluation stopped. */
  function Prepend(v: Value, rest: Evaluated): Evaluated {
    if rest.stopped.Some? then rest else Evaluated([v] + rest.values, None, rest.frames)
  }

  /** The arguments, left to right, each in the arena the previous one left. */
  function EvalArgs(fuel: nat, text: real -> string, frames: seq<Frame>, env: nat, arguments: seq<Expr>): (r: Evaluated)
    requires Ready(frames, env)
    ensures EvaluatedOk(frames, r)
    ensures r.stopped.None? ==> |r.values| == |arguments|
    decreases fuel, 1, |arguments|
  {
    if arguments == [] then Evaluated([], None, frames)
    else
      var s := Eval(fuel, text, frames, env, arguments[0]);
      if s.completion.Abrupt? then Evaluated([], Some(s.completion.signal), s.frames)
      else Prepend(s.completion.value, EvalArgs(fuel, text, s.frames, env, arguments[1..]))
  }

  /** The checks of visitCallExpr once callee and arguments are known, then the call. */
  function Invoke(fuel: nat, text: real -> string, frames: seq<Frame>, callee: Value, paren: Token, arguments: seq<Value>): (r: Step)
    requires Wf(frames) && ValueLive(callee, |frames|)
    requires forall k :: 0 <= k < |arguments| ==> ValueLive(arguments[k], |frames|)
    ensures StepOk(frames, r)
    decreases fuel, 3, 0
  {
    if !callee.Function? then
      Step(Abrupt(Thrown(RuntimeError(paren, NotCallable))), frames)
    else if |arguments| != Arity(callee.f) then
      Step(Abrupt(Thrown(RuntimeError(paren, ArityMismatch(Arity(callee.f), |arguments|)))), frames)
    else CallFunction(fuel, text, frames, callee.f, arguments)
  }

  // ---------------------------------------------------------------------------
  // LoxFunction.call

  /** The parameter loop of call: define each parameter, in order, in frame env. */
  function BindParams(frames: seq<Frame>, env: nat, params: seq<Token>, arguments: seq<Value>): (r: seq<Frame>)
    requires Ready(frames, env) && |params| == |arguments|
    requires forall k :: 0 <= k < |arguments| ==> ValueLive(arguments[k], |frames|)
    ensures Grows(frames, r) && |r| == |frames|
    decreases |params|
  {
    if params == [] then frames
    else
      DefineOk(frames, env, params[0].lexeme, arguments[0]);
      BindParams(DefineIn(frames, env, params[0].lexeme, arguments[0]), env, params[1..], arguments[1..])
  }

  /** The value of the call: a Return's value, nil when the body finishes, any other signal passes on. */
  function CallResult(body: Step): (r: Step) {
    match body.completion
    case Abrupt(ReturnSignal(v)) => Step(Normal(v), body.frames)
    case Abrupt(_) => body
    case Normal(_) => Step(Normal(Nil), body.frames)
  }

  /** call: a fresh frame over the closure, the parameters bound in it, and the body run there. */
  function CallFunction(fuel: nat, text: real -> string, frames: seq<Frame>, f: LoxFunction, arguments: seq<Value>): (r: Step)
    requires Wf(frames) && f.closure < |frames| && |arguments| == |f.params|
    requires forall k :: 0 <= k < |arguments| ==> ValueLive(arguments[k], |frames|)
    ensures StepOk(frames, r)
    decreases fuel, 2, 0
  {
    AllocateOk(frames, f.closure);
    StillLive(arguments, |frames|, |frames| + 1);
    var bound := BindParams(Allocate(frames, f.closure), |frames|, f.params, arguments);
    CallResult(ExecBlock(fuel, text, bound, |frames|, f.body))
  }

  // ---------------------------------------------------------------------------
  // Statements

  function Exec(fuel: nat, text: real -> string, frames: seq<Frame>, env: nat, s: Stmt): (r: Step)
    requires Ready(frames, env)
    ensures StepOk(frames, r)
    ensures r.completion.Normal? ==> r.completion.value == Nil
    decreases fuel, 0, 0
  {
    if fuel == 0 then Step(Abrupt(OutOfFuel), frames)
    else AcceptStmt(fuel - 1, text, frames, env, s)
  }

  /** stmt.accept(this): the visit method for the statement's kind, with one unit of fuel spent. */
  function AcceptStmt(fuel: nat, text: real -> string, frames: seq<Frame>, env: nat, s: Stmt): (r: Step)
    requires Ready(frames, env)
    ensures StepOk(frames, r)
    ensures r.completion.Normal? ==> r.completion.value == Nil
    decreases fuel, 5, 0
  {
    match s
    case Expression(e) => Discard(Eval(fuel, text, frames, env, e))
    case Print(e) => Discard(Eval(fuel, text, frames, env, e))
    case Var(name, initializer) => ExecVar(fuel, text, frames, env, name, initializer)
    case Block(statements) =>
      AllocateOk(frames, env);
      ExecBlock(fuel, text, Allocate(frames, env), |frames|, statements)
    case If(_, _) => Step(Abrupt(Thrown(BareIf())), frames)
    case IfElse(branches, elseBranch) => ExecIfElse(fuel, text, frames, env, branches, elseBranch)
    case While(condition, body) => ExecWhile(fuel, text, frames, env, condition, body)
    case LoopKeyword(token) => Step(Abrupt(LoopSignal(token)), frames)
    case Function(decl) =>
      DefineOk(frames, env, decl.name.lexeme, Value.Function(Declared(decl, env)));
      Step(Normal(Nil), DefineIn(frames, env, decl.name.lexeme, Value.Function(Declared(decl, env))))
    case Return(_, value) => ExecReturn(fuel, text, frames, env, value)
    case Class(_, _, _) => Step(Abrupt(NoVisitor), frames)
    case Absent => Step(Abrupt(NullPointer), frames)
  }

  function ExecVar(fuel: nat, text: real -> string, frames: seq<Frame>, env: nat, name: Token, initializer: Option<Expr>): (r: Step)
    requires Ready(frames, env)
    ensures StepOk(frames, r)
    ensures r.completion.Normal? ==> r.completion.value == Nil
    decreases fuel, 1, 0
  {
    match initializer
    case None =>
      DeclareOk(frames, env, name.lexeme);
      Step(Normal(Nil), DeclareIn(frames, env, name.lexeme))
    case Some(e) =>
      var s := Eval(fuel, text, frames, env, e);
      if s.completion.Abrupt? then s
      else
        DefineOk(s.frames, env, name.lexeme, s.completion.value);
        Step(Normal(Nil), DefineIn(s.frames, env, name.lexeme, s.completion.value))
  }

  function ExecReturn(fuel: nat, text: real -> string, frames: seq<Frame>, env: nat, value: Option<Expr>): (r: Step)
    requires Ready(frames, env)
    ensures StepOk(frames, r)
    ensures r.completion.Abrupt?
    decreases fuel, 1, 0
  {
    match value
    case None => Step(Abrupt(ReturnSignal(Nil)), frames)
    case Some(e) =>
      var s := Eval(fuel, text, frames, env, e);
      if s.completion.Abrupt? then s
      else Step(Abrupt(ReturnSignal(s.completion.value)), s.frames)
  }

  /** executeBlock: the statements in order in environment env, stopping at the first abrupt completion. */
  function ExecBlock(fuel: nat, text: real -> string, frames: seq<Frame>, env: nat, statements: seq<Stmt>): (r: Step)
    requires Ready(frames, env)
    ensures StepOk(frames, r)
    ensures r.completion.Normal? ==> r.completion.value == Nil
    decreases fuel, 1, |statements|
  {
    if statements == [] then Step(Normal(Nil), frames)
    else
      var s := Exec(fuel, text, frames, env, statements[0]);
      if s.completion.Abrupt? then s
      else ExecBlock(fuel, text, s.frames, env, statements[1..])
  }

  /** visitIfElseStmt: the body of the first branch whose condition is truthy, else the else branch. */
  function ExecIfElse(fuel: nat, text: real -> string, frames: seq<Frame>, env: nat,
                      branches: seq<Branch>, elseBranch: Option<Stmt>): (r: Step)
    requires Ready(frames, env)
    ensures StepOk(frames, r)
    ensures r.completion.Normal? ==> r.completion.value == Nil
    decreases fuel, 1, |branches|
  {
    if branches == [] then
      match elseBranch
      case None => Step(Normal(Nil), frames)
      case Some(s) => Exec(fuel, text, frames, env, s)
    else
      var c := Eval(fuel, text, frames, env, branches[0].condition);
      if c.completion.Abrupt? then c
      else if IsTruthy(c.completion.value) then Exec(fuel, text, c.frames, env, branches[0].body)
      else ExecIfElse(fuel, text, c.frames, env, branches[1..], elseBranch)
  }

  function ExecWhile(fuel: nat, text: real -> string, frames: seq<Frame>, env: nat, condition: Expr, body: Stmt): (r: Step)
    requires Ready(frames, env)
    ensures StepOk(frames, r)
    ensures r.completion.Normal? ==> r.completion.value == Nil
    decreases fuel, 2, 0
  {
    var c := Eval(fuel, text, frames, env, condition);
    if c.completion.Abrupt? then c
    else Iterate(fuel, text, c.frames, env, condition, body, c.completion.value)
  }

  /** The try block of the loop: the body, then the condition again. */
  function TryBody(fuel: nat, text: real -> string, frames: seq<Frame>, env: nat, condition: Expr, body: Stmt): (r: Step)
    requires Ready(frames, env)
    ensures StepOk(frames, r)
    decreases fuel, 0, 1
  {
    var b := Exec(fuel, text, frames, env, body);
    if b.completion.Abrupt? then b else Eval(fuel, text, b.frames, env, condition)
  }

  /**
   * The loop of visitWhileStmt from a condition value: each iteration costs
   * one unit of fuel. break ends the loop normally, continue evaluates the
   * condition outside the try block, and any other interrupt becomes a
   * RuntimeError.
   */
  function Iterate(fuel: nat, text: real -> string, frames: seq<Frame>, env: nat, condition: Expr, body: Stmt, value: Value): (r: Step)
    requires Ready(frames, env)
    ensures StepOk(frames, r)
    ensures r.completion.Normal? ==> r.completion.value == Nil
    decreases fuel, 1, 0
  {
    if !IsTruthy(value) then Step(Normal(Nil), frames)
    else if fuel == 0 then Step(Abrupt(OutOfFuel), frames)
    else
      var attempt := TryBody(fuel, text, frames, env, condition, body);
      match attempt.completion
      case Normal(v) => Iterate(fuel - 1, text, attempt.frames, env, condition, body, v)
      case Abrupt(LoopSignal(token)) =>
        if token.kind.CONTINUE? then
          var c := Eval(fuel, text, attempt.frames, env, condition);
          if c.completion.Abrupt? then c
          else Iterate(fuel - 1, text, c.frames, env, condition, body, c.completion.value)
        else if token.kind.BREAK? then Step(Normal(Nil), attempt.frames)
        else Step(Abrupt(Thrown(RuntimeError(token, UnknownLoopInterrupt))), attempt.frames)
      case Abrupt(_) => attempt
  }
}
