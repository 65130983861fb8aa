/**
 * Properties of the interpreter's semantics: truthiness and equality, the
 * operators, short-circuiting, the if-else chain and the while loop,
 * increments, declarations, and what a call does with its frame.
 */
module InterpreterProperties {
  import opened Common
  import opened Syntax
  import opened Runtime
  import opened Evaluation
  import Interpreter
  import Util

  // ---------------------------------------------------------------------------
  // Truthiness and equality

  /** Only nil and false are falsy. */
  lemma FalsyValues(v: Value)
    ensures !IsTruthy(v) <==> v == Nil || v == Bool(false)
  {
  }

  /** Nil equals only nil, and any other value equals exactly the values equal to it. */
  lemma EqualityIsValueEquality(a: Value, b: Value)
    ensures IsEqual(a, b) <==> a == b
    ensures IsEqual(a, b) == IsEqual(b, a)
  {
  }

  // ---------------------------------------------------------------------------
  // Operators

  /**
   * + adds two numbers, concatenates the display forms when either side is a
   * string, and fails for every other pair of operands.
   */
  lemma PlusAddsOrConcatenates(text: real -> string, operator: Token, left: Value, right: Value)
    requires operator.kind.PLUS?
    ensures var c := BinaryOp(text, operator, left, right);
      (left.Num? && right.Num? ==> c == Normal(Num(left.n + right.n))) &&
      (left.Str? && right.Str? ==> c == Normal(Str(left.s + right.s))) &&
      (left.Str? && right.Num? ==> c == Normal(Str(left.s + Util.Stringify(right, text)))) &&
      (left.Num? && right.Str? ==> c == Normal(Str(Util.Stringify(left, text) + right.s))) &&
      (c.Abrupt? <==> !(left.Num? && right.Num?) && !left.Str? && !right.Str?) &&
      (c.Abrupt? ==> c == Abrupt(Thrown(RuntimeError(operator, PlusOperands))))
  {
  }

  /**
   * -, *, / and the comparisons need two numbers. The left operand is checked
   * first; a nil operand fails with the NullPointerException of its
   * toString(), any other non-number with a RuntimeError naming it. With two
   * numbers only division by zero fails.
   */
  lemma NumberOperatorsNeedNumbers(text: real -> string, operator: Token, left: Value, right: Value)
    requires IsNumberOperator(operator.kind)
    ensures var c := BinaryOp(text, operator, left, right);
      (c.Normal? ==> left.Num? && right.Num?) &&
      (left.Nil? ==> c == Abrupt(NullPointer)) &&
      (left.Num? && right.Nil? ==> c == Abrupt(NullPointer)) &&
      (!left.Num? && !left.Nil? ==>
        c == Abrupt(Thrown(RuntimeError(operator, OperandNotNumber(Util.ToString(left).value))))) &&
      (left.Num? && !right.Num? && !right.Nil? ==>
        c == Abrupt(Thrown(RuntimeError(operator, OperandNotNumber(Util.ToString(right).value))))) &&
      (left.Num? && right.Num? ==> (c.Abrupt? <==> operator.kind.SLASH? && right.n == 0.0))
  {
  }

  /** Dividing by zero raises "Cannot divide by 0." at the operator; any other divisor divides. */
  lemma DivisionByZeroRaises(text: real -> string, operator: Token, a: real, b: real)
    requires operator.kind.SLASH?
    ensures b == 0.0 ==> BinaryOp(text, operator, Num(a), Num(b)) == Abrupt(Thrown(RuntimeError(operator, DivisionByZero)))
    ensures b != 0.0 ==> BinaryOp(text, operator, Num(a), Num(b)) == Normal(Num(a / b))
    ensures MessageText(DivisionByZero) == "Cannot divide by 0."
  {
  }

  /** ! gives the negated truthiness, so !!x is x's truthiness; unary - needs a number. */
  lemma UnaryOperators(bang: Token, minus: Token, v: Value)
    requires bang.kind.BANG? && minus.kind.MINUS?
    ensures UnaryOp(bang, v) == Normal(Bool(!IsTruthy(v)))
    ensures UnaryOp(bang, UnaryOp(bang, v).value) == Normal(Bool(IsTruthy(v)))
    ensures UnaryOp(minus, v).Normal? <==> v.Num?
    ensures v.Num? ==> UnaryOp(minus, v) == Normal(Num(-v.n))
  {
  }

  // ---------------------------------------------------------------------------
  // Short-circuit evaluation

  /**
   * or yields the left operand's own value when it is truthy, without
   * evaluating the right one; otherwise it is the right operand. Either way
   * the result is truthy exactly when one of the operands is.
   */
  lemma OrShortCircuits(fuel: nat, text: real -> string, frames: seq<Frame>, env: nat, left: Expr, operator: Token, right: Expr)
    requires Ready(frames, env) && operator.kind.OR?
    ensures var l := Eval(fuel, text, frames, env, left);
      var r := EvalLogical(fuel, text, frames, env, left, operator, right);
      (l.completion.Abrupt? ==> r == l) &&
      (l.completion.Normal? && IsTruthy(l.completion.value) ==> r == l) &&
      (l.completion.Normal? && !IsTruthy(l.completion.value) ==> r == Eval(fuel, text, l.frames, env, right)) &&
      (l.completion.Normal? && r.completion.Normal? ==>
        (IsTruthy(r.completion.value) <==>
          IsTruthy(l.completion.value) || IsTruthy(Eval(fuel, text, l.frames, env, right).completion.value)))
  {
  }

  /**
   * and yields the left operand's own value when it is falsy, without
   * evaluating the right one; otherwise it is the right operand. Either way
   * the result is truthy exactly when both operands are.
   */
  lemma AndShortCircuits(fuel: nat, text: real -> string, frames: seq<Frame>, env: nat, left: Expr, operator: Token, right: Expr)
    requires Ready(frames, env) && operator.kind.AND?
    ensures var l := Eval(fuel, text, frames, env, left);
      var r := EvalLogical(fuel, text, frames, env, left, operator, right);
      (l.completion.Abrupt? ==> r == l) &&
      (l.completion.Normal? && !IsTruthy(l.completion.value) ==> r == l) &&
      (l.completion.Normal? && IsTruthy(l.completion.value) ==> r == Eval(fuel, text, l.frames, env, right)) &&
      (l.completion.Normal? && r.completion.Normal? ==>
        (IsTruthy(r.completion.value) <==>
          IsTruthy(l.completion.value) && IsTruthy(Eval(fuel, text, l.frames, env, right).completion.value)))
  {
  }

  /**
   * The conditional evaluates its condition, then exactly one branch, in the
   * arena the condition left; a pair of operators other than ? and : is an
   * error raised before anything is evaluated.
   */
  lemma TernaryEvaluatesOneBranch(fuel: nat, text: real -> string, frames: seq<Frame>, env: nat,
                                  left: Expr, center: Expr, right: Expr, leftOperator: Token, rightOperator: Token)
    requires Ready(frames, env)
    ensures var r := EvalTernary(fuel, text, frames, env, left, center, right, leftOperator, rightOperator);
      var c := Eval(fuel, text, frames, env, left);
      (!(leftOperator.kind.QUESTION_MARK? && rightOperator.kind.COLON?) ==>
        r == Step(Abrupt(Thrown(RuntimeError(leftOperator, UnknownTernaryPair(leftOperator.lexeme, rightOperator.lexeme)))), frames)) &&
      (leftOperator.kind.QUESTION_MARK? && rightOperator.kind.COLON? ==>
        (c.completion.Abrupt? ==> r == c) &&
        (c.completion.Normal? && IsTruthy(c.completion.value) ==> r == Eval(fuel, text, c.frames, env, center)) &&
        (c.completion.Normal? && !IsTruthy(c.completion.value) ==> r == Eval(fuel, text, c.frames, env, right)))
  {
    if leftOperator.kind.QUESTION_MARK? && rightOperator.kind.COLON? {
      var c := Eval(fuel, text, frames, env, left);
      if c.completion.Normal? {
        assert EvalTernary(fuel, text, frames, env, left, center, right, leftOperator, rightOperator) ==
          Choose(fuel, text, c.frames, env, c.completion.value, center, right);
      }
    }
  }

  // ---------------------------------------------------------------------------
  // The if-else chain

  /** Which branch of an if-else chain is taken, and the arena its conditions leave. */
  datatype Selection = Selected(index: nat, frames: seq<Frame>) | NoneSelected(frames: seq<Frame>) | Interrupted(step: Step)

  /** The conditions, in order, up to the first truthy one. */
  function SelectBranch(fuel: nat, text: real -> string, frames: seq<Frame>, env: nat, branches: seq<Branch>): (r: Selection)
    requires Ready(frames, env)
    ensures r.Selected? ==> r.index < |branches| && Ready(r.frames, env)
    ensures r.NoneSelected? ==> Ready(r.frames, env)
    ensures r.Interrupted? ==> r.step.completion.Abrupt?
    decreases |branches|
  {
    if branches == [] then NoneSelected(frames)
    else
      var c := Eval(fuel, text, frames, env, branches[0].condition);
      if c.completion.Abrupt? then Interrupted(c)
      else if IsTruthy(c.completion.value) then Selected(0, c.frames)
      else
        match SelectBranch(fuel, text, c.frames, env, branches[1..])
        case Selected(k, fs) => Selected(k + 1, fs)
        case other => other
  }

  /**
   * An if-else chain runs the body of the first branch whose condition is
   * truthy and nothing else; the else branch runs only when no condition was
   * truthy, and without one the chain does nothing.
   */
  lemma {:induction false} IfElseRunsFirstTruthyBranch(fuel: nat, text: real -> string, frames: seq<Frame>, env: nat,
                                                       branches: seq<Branch>, elseBranch: Option<Stmt>)
    requires Ready(frames, env)
    ensures ExecIfElse(fuel, text, frames, env, branches, elseBranch) ==
      match SelectBranch(fuel, text, frames, env, branches)
      case Interrupted(s) => s
      case Selected(k, fs) => Exec(fuel, text, fs, env, branches[k].body)
      case NoneSelected(fs) =>
        if elseBranch.Some? then Exec(fuel, text, fs, env, elseBranch.value) else Step(Normal(Nil), fs)
    decreases |branches|
  {
    if branches != [] {
      var c := Eval(fuel, text, frames, env, branches[0].condition);
      if c.completion.Normal? && !IsTruthy(c.completion.value) {
        assert branches[1..] == branches[1..];
        IfElseRunsFirstTruthyBranch(fuel, text, c.frames, env, branches[1..], elseBranch);
        match SelectBranch(fuel, text, c.frames, env, branches[1..])
        case Selected(k, fs) =>
          assert branches[k + 1] == branches[1..][k];
        case NoneSelected(_) =>
        case Interrupted(_) =>
      }
    }
  }

  // ---------------------------------------------------------------------------
  // The while loop

  /** A condition that is falsy from the start runs the body zero times. */
  lemma WhileFalseSkipsBody(fuel: nat, text: real -> string, frames: seq<Frame>, env: nat, condition: Expr, body: Stmt)
    requires Ready(frames, env)
    ensures var c := Eval(fuel, text, frames, env, condition);
      c.completion.Normal? && !IsTruthy(c.completion.value) ==>
        ExecWhile(fuel, text, frames, env, condition, body) == Step(Normal(Nil), c.frames)
  {
  }

  /**
   * One iteration from a truthy condition runs the body, then evaluates the
   * condition again inside the same try block; a normal outcome starts the
   * next iteration with that condition value.
   */
  lemma WhileIteration(fuel: nat, text: real -> string, frames: seq<Frame>, env: nat, condition: Expr, body: Stmt, value: Value)
    requires Ready(frames, env) && IsTruthy(value) && fuel > 0
    ensures var a := TryBody(fuel, text, frames, env, condition, body);
      var b := Exec(fuel, text, frames, env, body);
      (b.completion.Abrupt? ==> a == b) &&
      (b.completion.Normal? ==> a == Eval(fuel, text, b.frames, env, condition)) &&
      (a.completion.Normal? ==>
        Iterate(fuel, text, frames, env, condition, body, value) ==
        Iterate(fuel - 1, text, a.frames, env, condition, body, a.completion.value))
  {
    var a := TryBody(fuel, text, frames, env, condition, body);
    if a.completion.Normal? {
      NextIteration(fuel, text, frames, env, condition, body, value);
    }
  }

  /** A normal pass through the try block goes on with the condition value it computed. */
  lemma NextIteration(fuel: nat, text: real -> string, frames: seq<Frame>, env: nat, condition: Expr, body: Stmt, value: Value)
    requires Ready(frames, env) && IsTruthy(value) && fuel > 0
    requires TryBody(fuel, text, frames, env, condition, body).completion.Normal?
    ensures var a := TryBody(fuel, text, frames, env, condition, body);
      Iterate(fuel, text, frames, env, condition, body, value) ==
      Iterate(fuel - 1, text, a.frames, env, condition, body, a.completion.value)
  {
  }

  /**
   * An interrupt out of the body or the condition: break leaves the loop
   * normally, continue evaluates the condition and goes on, any other loop
   * keyword becomes a RuntimeError, and every other abrupt completion leaves
   * the loop as it is.
   */
  lemma WhileInterrupts(fuel: nat, text: real -> string, frames: seq<Frame>, env: nat, condition: Expr, body: Stmt, value: Value)
    requires Ready(frames, env) && IsTruthy(value) && fuel > 0
    ensures var a := TryBody(fuel, text, frames, env, condition, body);
      var r := Iterate(fuel, text, frames, env, condition, body, value);
      (a.completion.Abrupt? && a.completion.signal.LoopSignal? ==>
        var token := a.completion.signal.token;
        (token.kind.BREAK? ==> r == Step(Normal(Nil), a.frames)) &&
        (token.kind.CONTINUE? ==>
          var c := Eval(fuel, text, a.frames, env, condition);
          r == if c.completion.Abrupt? then c else Iterate(fuel - 1, text, c.frames, env, condition, body, c.completion.value)) &&
        (!token.kind.BREAK? && !token.kind.CONTINUE? ==>
          r == Step(Abrupt(Thrown(RuntimeError(token, UnknownLoopInterrupt))), a.frames))) &&
      (a.completion.Abrupt? && !a.completion.signal.LoopSignal? ==> r == a)
  {
    var a := TryBody(fuel, text, frames, env, condition, body);
    if a.completion.Abrupt? {
      if a.completion.signal.LoopSignal? {
        LoopSignalOutcome(fuel, text, frames, env, condition, body, value);
      } else {
        OtherSignalOutcome(fuel, text, frames, env, condition, body, value);
      }
    }
  }

  /** The outcome of the loop when the try block ends in a loop interrupt. */
  lemma LoopSignalOutcome(fuel: nat, text: real -> string, frames: seq<Frame>, env: nat, condition: Expr, body: Stmt, value: Value)
    requires Ready(frames, env) && IsTruthy(value) && fuel > 0
    requires var a := TryBody(fuel, text, frames, env, condition, body);
      a.completion.Abrupt? && a.completion.signal.LoopSignal?
    ensures var a := TryBody(fuel, text, frames, env, condition, body);
      var token := a.completion.signal.token;
      Iterate(fuel, text, frames, env, condition, body, value) ==
        if token.kind.CONTINUE? then
          var c := Eval(fuel, text, a.frames, env, condition);
          if c.completion.Abrupt? then c else Iterate(fuel - 1, text, c.frames, env, condition, body, c.completion.value)
        else if token.kind.BREAK? then Step(Normal(Nil), a.frames)
        else Step(Abrupt(Thrown(RuntimeError(token, UnknownLoopInterrupt))), a.frames)
  {
  }

  /** Any other abrupt completion of the try block leaves the loop unchanged. */
  lemma OtherSignalOutcome(fuel: nat, text: real -> string, frames: seq<Frame>, env: nat, condition: Expr, body: Stmt, value: Value)
    requires Ready(frames, env) && IsTruthy(value) && fuel > 0
    requires var a := TryBody(fuel, text, frames, env, condition, body);
      a.completion.Abrupt? && !a.completion.signal.LoopSignal?
    ensures Iterate(fuel, text, frames, env, condition, body, value) == TryBody(fuel, text, frames, env, condition, body)
  {
  }

  // ---------------------------------------------------------------------------
  // Increment and declarations

  /**
   * Increment and decrement read the variable, require a whole number, write
   * back the value plus or minus one (a following read sees it), and yield
   * the new value when prefix and the old one when postfix.
   */
  lemma IncrementWritesBack(frames: seq<Frame>, env: nat, identifier: VarRef, kind: IncrementKind)
    requires Ready(frames, env)
    ensures var r := IncrementStep(frames, env, identifier, kind);
      var got := Lookup(frames, env, identifier.name);
      (got.Err? ==> r == Step(Abrupt(Thrown(got.error)), frames)) &&
      (got.Ok? && !(got.value.Num? && Util.IsInteger(got.value.n)) ==>
        r == Step(Abrupt(Thrown(RuntimeError(identifier.name, IncrementNonInteger))), frames)) &&
      (got.Ok? && got.value.Num? && Util.IsInteger(got.value.n) ==>
        var before := got.value.n;
        var written := if kind.PRE_INCREMENT? || kind.POST_INCREMENT? then before + 1.0 else before - 1.0;
        r.completion == Normal(Num(if kind.PRE_INCREMENT? || kind.PRE_DECREMENT? then written else before)) &&
        Lookup(r.frames, env, identifier.name) == Ok(Num(written)) &&
        Util.IsInteger(written))
  {
    var got := Lookup(frames, env, identifier.name);
    if got.Ok? && got.value.Num? && Util.IsInteger(got.value.n) {
      var before := got.value.n;
      var written := if kind.PRE_INCREMENT? || kind.POST_INCREMENT? then before + 1.0 else before - 1.0;
      AssignThenGet(frames, env, identifier.name, Num(written));
      assert written.Floor == before.Floor + (if kind.PRE_INCREMENT? || kind.POST_INCREMENT? then 1 else -1);
    }
  }

  /** A var without initializer declares the name, so reading it fails until it is assigned. */
  lemma VarWithoutInitializerDeclares(fuel: nat, text: real -> string, frames: seq<Frame>, env: nat, name: Token)
    requires Ready(frames, env) && fuel > 0
    ensures var r := Exec(fuel, text, frames, env, Var(name, None));
      r.completion == Normal(Nil) && r.frames == DeclareIn(frames, env, name.lexeme) &&
      Lookup(r.frames, env, name) == Err(RuntimeError(name, ReadBeforeInit))
  {
    assert Exec(fuel, text, frames, env, Var(name, None)) == ExecVar(fuel - 1, text, frames, env, name, None);
    DeclareThenGet(frames, env, name);
  }

  /** A var with an initializer defines the name in the current frame with the initializer's value. */
  lemma VarWithInitializerDefines(fuel: nat, text: real -> string, frames: seq<Frame>, env: nat, name: Token, initializer: Expr)
    requires Ready(frames, env) && fuel > 0
    ensures var s := Eval(fuel - 1, text, frames, env, initializer);
      var r := Exec(fuel, text, frames, env, Var(name, Some(initializer)));
      (s.completion.Abrupt? ==> r == s) &&
      (s.completion.Normal? ==>
        r.completion == Normal(Nil) && Lookup(r.frames, env, name) == Ok(s.completion.value) &&
        forall i :: 0 <= i < |frames| && i != env ==> r.frames[i] == s.frames[i])
  {
    var s := Eval(fuel - 1, text, frames, env, initializer);
    assert Exec(fuel, text, frames, env, Var(name, Some(initializer))) == ExecVar(fuel - 1, text, frames, env, name, Some(initializer));
    if s.completion.Normal? {
      DefineThenGet(s.frames, env, name, s.completion.value);
    }
  }

  /** A function declaration binds its name in the current frame to a function whose closure is that frame. */
  lemma FunctionDeclarationCapturesEnvironment(fuel: nat, text: real -> string, frames: seq<Frame>, env: nat, decl: FunDecl)
    requires Ready(frames, env) && fuel > 0
    ensures var r := Exec(fuel, text, frames, env, Stmt.Function(decl));
      r.completion == Normal(Nil) &&
      Lookup(r.frames, env, decl.name) == Ok(Value.Function(LoxFunction(decl.name, decl.params, decl.body, env)))
  {
    DefineThenGet(frames, env, decl.name, Value.Function(Declared(decl, env)));
  }

  /** A block runs its statements in a fresh, empty frame enclosed by the current one. */
  lemma BlockRunsInFreshChildFrame(fuel: nat, text: real -> string, frames: seq<Frame>, env: nat, statements: seq<Stmt>)
    requires Ready(frames, env) && fuel > 0
    ensures var inner := Allocate(frames, env);
      Exec(fuel, text, frames, env, Block(statements)) == ExecBlock(fuel - 1, text, inner, |frames|, statements) &&
      inner[..|frames|] == frames && inner[|frames|] == Frame(map[], Some(env))
  {
  }

  // ---------------------------------------------------------------------------
  // Calls

  /**
   * The arguments are evaluated left to right: evaluating first + rest is
   * evaluating first, then rest in the arena first left, unless first stopped.
   */
  lemma {:induction false} ArgumentsLeftToRight(fuel: nat, text: real -> string, frames: seq<Frame>, env: nat, first: seq<Expr>, rest: seq<Expr>)
    requires Ready(frames, env)
    ensures var a := EvalArgs(fuel, text, frames, env, first);
      Ready(a.frames, env) &&
      EvalArgs(fuel, text, frames, env, first + rest) ==
        if a.stopped.Some? then a else Interpreter.Joined(a.values, EvalArgs(fuel, text, a.frames, env, rest))
    decreases |first|
  {
    if first == [] {
      assert first + rest == rest;
    } else {
      assert (first + rest)[0] == first[0];
      assert (first + rest)[1..] == first[1..] + rest;
      var s := Eval(fuel, text, frames, env, first[0]);
      if s.completion.Normal? {
        ArgumentsLeftToRight(fuel, text, s.frames, env, first[1..], rest);
        var inner := EvalArgs(fuel, text, s.frames, env, first[1..]);
        if inner.stopped.None? {
          var later := EvalArgs(fuel, text, inner.frames, env, rest);
          if later.stopped.None? {
            assert [s.completion.value] + (inner.values + later.values) == ([s.completion.value] + inner.values) + later.values;
          }
        }
      }
    }
  }

  /** A call reports a value that cannot be called, then a wrong argument count naming both counts. */
  lemma CallChecks(fuel: nat, text: real -> string, frames: seq<Frame>, callee: Value, paren: Token, arguments: seq<Value>)
    requires Wf(frames) && ValueLive(callee, |frames|)
    requires forall k :: 0 <= k < |arguments| ==> ValueLive(arguments[k], |frames|)
    ensures var r := Invoke(fuel, text, frames, callee, paren, arguments);
      (!callee.Function? ==> r == Step(Abrupt(Thrown(RuntimeError(paren, NotCallable))), frames)) &&
      (callee.Function? && |arguments| != |callee.f.params| ==>
        r == Step(Abrupt(Thrown(RuntimeError(paren, ArityMismatch(|callee.f.params|, |arguments|)))), frames)) &&
      (callee.Function? && |arguments| == |callee.f.params| ==> r == CallFunction(fuel, text, frames, callee.f, arguments))
  {
  }

  /** The parameter names of a declaration. */
  function ParamNames(params: seq<Token>): (names: set<string>)
    ensures forall k :: 0 <= k < |params| ==> params[k].lexeme in names
    ensures |params| == 0 ==> names == {}
  {
    set k | 0 <= k < |params| :: params[k].lexeme
  }

  /** No later parameter has the same name as parameter k, so its binding is the one that stays. */
  predicate LastOfName(params: seq<Token>, k: nat)
    requires k < |params|
  {
    forall j :: k < j < |params| ==> params[j].lexeme != params[k].lexeme
  }

  /**
   * Binding parameters writes frame env only: it gains exactly the parameter
   * names, each bound to the argument at its position (a repeated name keeps
   * the last one), its other entries and its link stay, and every other frame
   * is unchanged.
   */
  lemma {:induction false} BindParamsBindsPositionally(frames: seq<Frame>, env: nat, params: seq<Token>, arguments: seq<Value>)
    requires Ready(frames, env) && |params| == |arguments|
    requires forall k :: 0 <= k < |arguments| ==> ValueLive(arguments[k], |frames|)
    ensures var r := BindParams(frames, env, params, arguments);
      (forall i :: 0 <= i < |frames| && i != env ==> r[i] == frames[i]) &&
      r[env].enclosing == frames[env].enclosing &&
      r[env].values.Keys == frames[env].values.Keys + ParamNames(params) &&
      (forall k :: 0 <= k < |params| && LastOfName(params, k) ==> r[env].values[params[k].lexeme] == Bound(arguments[k])) &&
      (forall name :: name in frames[env].values && name !in ParamNames(params) ==> r[env].values[name] == frames[env].values[name])
    decreases |params|
  {
    if params != [] {
      var next := DefineIn(frames, env, params[0].lexeme, arguments[0]);
      DefineOk(frames, env, params[0].lexeme, arguments[0]);
      BindParamsBindsPositionally(next, env, params[1..], arguments[1..]);
      var r := BindParams(frames, env, params, arguments);
      assert r == BindParams(next, env, params[1..], arguments[1..]);
      ParamNamesCons(params);
      forall k | 0 <= k < |params| && LastOfName(params, k)
        ensures r[env].values[params[k].lexeme] == Bound(arguments[k])
      {
        if k > 0 {
          LastOfNameTail(params, k);
          assert params[1..][k - 1] == params[k] && arguments[1..][k - 1] == arguments[k];
        }
      }
    }
  }

  /** The names of a non-empty parameter list: the first one and those of the rest. */
  lemma ParamNamesCons(params: seq<Token>)
    requires params != []
    ensures ParamNames(params) == {params[0].lexeme} + ParamNames(params[1..])
    ensures LastOfName(params, 0) ==> params[0].lexeme !in ParamNames(params[1..])
  {
    forall x | x in ParamNames(params)
      ensures x in {params[0].lexeme} + ParamNames(params[1..])
    {
      var k :| 0 <= k < |params| && params[k].lexeme == x;
      if k > 0 {
        assert params[1..][k - 1] == params[k];
      }
    }
  }

  /** A parameter that is last of its name stays so once the first parameter is dropped. */
  lemma LastOfNameTail(params: seq<Token>, k: nat)
    requires 0 < k < |params| && LastOfName(params, k)
    ensures LastOfName(params[1..], k - 1)
  {
    forall j | k - 1 < j < |params[1..]|
      ensures params[1..][j].lexeme != params[1..][k - 1].lexeme
    {
      assert params[1..][j] == params[j + 1];
    }
  }

  /**
   * LoxFunction.call runs the body in a fresh frame whose parent is the
   * closure, not the caller's frame: the frame holds exactly the parameters,
   * bound positionally, and no earlier frame, the closure included, gains a
   * binding. A Return gives the call's value, finishing the body gives nil,
   * and no Return escapes the call.
   */
  lemma CallRunsBodyInFreshFrame(fuel: nat, text: real -> string, frames: seq<Frame>, f: LoxFunction, arguments: seq<Value>)
    requires Wf(frames) && f.closure < |frames| && |arguments| == |f.params|
    requires forall k :: 0 <= k < |arguments| ==> ValueLive(arguments[k], |frames|)
    ensures Ready(Allocate(frames, f.closure), |frames|)
    ensures forall k :: 0 <= k < |arguments| ==> ValueLive(arguments[k], |frames| + 1)
    ensures var bound := BindParams(Allocate(frames, f.closure), |frames|, f.params, arguments);
      var body := ExecBlock(fuel, text, bound, |frames|, f.body);
      var r := CallFunction(fuel, text, frames, f, arguments);
      |bound| == |frames| + 1 && bound[..|frames|] == frames &&
      bound[|frames|].enclosing == Some(f.closure) &&
      bound[|frames|].values.Keys == ParamNames(f.params) &&
      (forall k :: 0 <= k < |f.params| && LastOfName(f.params, k) ==>
        bound[|frames|].values[f.params[k].lexeme] == Bound(arguments[k])) &&
      r.frames == body.frames &&
      (body.completion.Normal? ==> r.completion == Normal(Nil)) &&
      (body.completion.Abrupt? && body.completion.signal.ReturnSignal? ==> r.completion == Normal(body.completion.signal.value)) &&
      (r.completion.Abrupt? ==> !r.completion.signal.ReturnSignal?)
  {
    var start := Allocate(frames, f.closure);
    AllocateOk(frames, f.closure);
    StillLive(arguments, |frames|, |frames| + 1);
    BindParamsBindsPositionally(start, |frames|, f.params, arguments);
    var bound := BindParams(start, |frames|, f.params, arguments);
    assert bound[..|frames|] == frames by {
      assert forall i :: 0 <= i < |frames| ==> bound[i] == start[i] == frames[i];
    }
  }
}
