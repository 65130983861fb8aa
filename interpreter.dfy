/**
 * The tree-walking interpreter as an object: the arena of environments it
 * shares with every closure, and the current environment, which
 * executeBlock switches and restores. Every visit method is proved to
 * compute what the corresponding function of Evaluation says, on the arena
 * and with the environment it starts from.
 */
module Interpreter {
  import opened Common
  import opened Syntax
  import opened Runtime
  import opened Evaluation
  import Util

  class Interpreter {
    /** Every Environment object; frame 0 is globals. */
    const heap: Environments
    /** The current environment. */
    var environment: nat
    /** Double.toString, which stringify uses for numbers. */
    const text: real -> string

    ghost predicate Valid()
      reads this, heap
    {
      Ready(heap.frames, environment)
    }

    /** globals is a fresh empty environment and the current one. */
    constructor(text: real -> string)
      ensures Valid() && fresh(heap) && this.text == text
      ensures heap.frames == [Frame(map[], None)] && environment == 0
    {
      heap := new Environments();
      environment := 0;
      this.text := text;
    }

    // -------------------------------------------------------------------------
    // Expressions

    method Evaluate(fuel: nat, e: Expr) returns (c: Completion)
      requires Valid()
      modifies this, heap
      ensures Valid() && environment == old(environment)
      ensures Step(c, heap.frames) == Eval(fuel, text, old(heap.frames), environment, e)
      decreases fuel, 0, 0
    {
      if fuel == 0 {
        return Abrupt(OutOfFuel);
      }
      match e
      case Literal(lit) =>
        c := Normal(LiteralValue(lit));
      case Grouping(inner) =>
        c := Evaluate(fuel - 1, inner);
      case Variable(_) =>
        c := VisitVariable(e);
      case Assign(_, _, _) =>
        c := VisitAssign(fuel - 1, e);
      case Unary(_, _) =>
        c := VisitUnary(fuel - 1, e);
      case Binary(_, _, _) =>
        c := VisitBinary(fuel - 1, e);
      case Logical(_, _, _) =>
        c := VisitLogical(fuel - 1, e);
      case Ternary(_, _, _, _, _) =>
        c := VisitTernary(fuel - 1, e);
      case Increment(_, _, _) =>
        c := VisitIncrement(e);
      case Call(_, _, _) =>
        c := VisitCall(fuel - 1, e);
      case Fun(_, _, _) =>
        c := Abrupt(NoVisitor);
      case Get(_, _) =>
        c := Abrupt(NoVisitor);
      case Set(_, _, _) =>
        c := Abrupt(NoVisitor);
      case This(_, _) =>
        c := Abrupt(NoVisitor);
      case Super(_, _, _) =>
        c := Abrupt(NoVisitor);
    }

    /** visitVariableExpr: environment.get; the error it throws becomes the completion. */
    method VisitVariable(expr: Expr) returns (c: Completion)
      requires Valid() && expr.Variable?
      ensures c == FromLookup(Lookup(heap.frames, environment, expr.ref.name))
    {
      var r := heap.Get(environment, expr.ref.name);
      c := FromLookup(r);
    }

    /** environment.assign; the error it throws becomes the completion. */
    method AssignValue(name: Token, v: Value) returns (c: Completion)
      requires Valid() && ValueLive(v, |heap.frames|)
      modifies heap
      ensures Valid()
      ensures Step(c, heap.frames) == Assigned(old(heap.frames), environment, name, v)
    {
      AssignOk(heap.frames, environment, name, v);
      var error := heap.Assign(environment, name, v);
      if error.Some? {
        return Abrupt(Thrown(error.value));
      }
      c := Normal(v);
    }

    method VisitAssign(fuel: nat, expr: Expr) returns (c: Completion)
      requires Valid() && expr.Assign?
      modifies this, heap
      ensures Valid() && environment == old(environment)
      ensures Step(c, heap.frames) == EvalAssign(fuel, text, old(heap.frames), environment, expr.name, expr.value)
      decreases fuel, 1, 0
    {
      c := Evaluate(fuel, expr.value);
      if c.Abrupt? {
        return;
      }
      c := AssignValue(expr.name, c.value);
    }

    method VisitUnary(fuel: nat, expr: Expr) returns (c: Completion)
      requires Valid() && expr.Unary?
      modifies this, heap
      ensures Valid() && environment == old(environment)
      ensures Step(c, heap.frames) == EvalUnary(fuel, text, old(heap.frames), environment, expr.operator, expr.right)
      decreases fuel, 1, 0
    {
      c := Evaluate(fuel, expr.right);
      if c.Abrupt? {
        return;
      }
      c := UnaryOp(expr.operator, c.value);
    }

    method VisitBinary(fuel: nat, expr: Expr) returns (c: Completion)
      requires Valid() && expr.Binary?
      modifies this, heap
      ensures Valid() && environment == old(environment)
      ensures Step(c, heap.frames) == EvalBinary(fuel, text, old(heap.frames), environment, expr.left, expr.operator, expr.right)
      decreases fuel, 1, 0
    {
      var l := Evaluate(fuel, expr.left);
      if l.Abrupt? {
        return l;
      }
      var r := Evaluate(fuel, expr.right);
      if r.Abrupt? {
        return r;
      }
      c := BinaryOp(text, expr.operator, l.value, r.value);
    }

    method VisitLogical(fuel: nat, expr: Expr) returns (c: Completion)
      requires Valid() && expr.Logical?
      modifies this, heap
      ensures Valid() && environment == old(environment)
      ensures Step(c, heap.frames) == EvalLogical(fuel, text, old(heap.frames), environment, expr.left, expr.operator, expr.right)
      decreases fuel, 1, 0
    {
      c := Evaluate(fuel, expr.left);
      if c.Abrupt? {
        return;
      }
      c := Decide(fuel, c.value, expr);
    }

    /** The operator's branch of visitLogicalExpr: the left value decides, or the right operand is evaluated. */
    method Decide(fuel: nat, left: Value, expr: Expr) returns (c: Completion)
      requires Valid() && ValueLive(left, |heap.frames|) && expr.Logical?
      modifies this, heap
      ensures Valid() && environment == old(environment)
      ensures Step(c, heap.frames) == ShortCircuit(fuel, text, old(heap.frames), environment, left, expr.operator, expr.right)
      decreases fuel, 0, 1
    {
      var operator, right := expr.operator, expr.right;
      if operator.kind.OR? {
        if IsTruthy(left) {
          c := Normal(left);
        } else {
          c := Evaluate(fuel, right);
        }
      } else if operator.kind.AND? {
        if !IsTruthy(left) {
          c := Normal(left);
        } else {
          c := Evaluate(fuel, right);
        }
      } else {
        c := Abrupt(Thrown(RuntimeError(operator, InvalidLogicalOperator)));
      }
    }

    method VisitTernary(fuel: nat, expr: Expr) returns (c: Completion)
      requires Valid() && expr.Ternary?
      modifies this, heap
      ensures Valid() && environment == old(environment)
      ensures Step(c, heap.frames) == EvalTernary(fuel, text, old(heap.frames), environment,
        expr.left, expr.center, expr.right, expr.leftOperator, expr.rightOperator)
      decreases fuel, 1, 0
    {
      if expr.leftOperator.kind.QUESTION_MARK? && expr.rightOperator.kind.COLON? {
        c := Evaluate(fuel, expr.left);
        if c.Abrupt? {
          return;
        }
        c := Conditional(fuel, c.value, expr);
      } else {
        c := Abrupt(Thrown(TernaryError(expr.leftOperator, expr.rightOperator)));
      }
    }

    /** The conditional branch of visitTernaryExpr: only the chosen operand is evaluated. */
    method Conditional(fuel: nat, condition: Value, expr: Expr) returns (c: Completion)
      requires Valid() && expr.Ternary?
      modifies this, heap
      ensures Valid() && environment == old(environment)
      ensures Step(c, heap.frames) == Choose(fuel, text, old(heap.frames), environment, condition, expr.center, expr.right)
      decreases fuel, 0, 1
    {
      if IsTruthy(condition) {
        c := Evaluate(fuel, expr.center);
      } else {
        c := Evaluate(fuel, expr.right);
      }
    }

    method VisitIncrement(expr: Expr) returns (c: Completion)
      requires Valid() && expr.Increment?
      modifies heap
      ensures Valid()
      ensures Step(c, heap.frames) == IncrementStep(old(heap.frames), environment, expr.identifier, expr.kind)
    {
      var identifier, kind := expr.identifier, expr.kind;
      var value := heap.Get(environment, identifier.name);
      if value.Err? {
        return Abrupt(Thrown(value.error));
      }
      var v := value.value;
      if !v.Num? || !Util.IsInteger(v.n) {
        return Abrupt(Thrown(RuntimeError(identifier.name, IncrementNonInteger)));
      }
      var d := v.n;
      var written, result;
      match kind {
        case POST_DECREMENT =>
          written, result := d - 1.0, d;
        case POST_INCREMENT =>
          written, result := d + 1.0, d;
        case PRE_DECREMENT =>
          written, result := d - 1.0, d - 1.0;
        case PRE_INCREMENT =>
          written, result := d + 1.0, d + 1.0;
      }
      c := AssignValue(identifier.name, Num(written));
      if c.Normal? {
        c := Normal(Num(result));
      }
    }

    /** visitCallExpr: the callee, then the arguments left to right, then the checks and the call. */
    method VisitCall(fuel: nat, expr: Expr) returns (c: Completion)
      requires Valid() && expr.Call?
      modifies this, heap
      ensures Valid() && environment == old(environment)
      ensures Step(c, heap.frames) == EvalCall(fuel, text, old(heap.frames), environment, expr.callee, expr.paren, expr.arguments)
      decreases fuel, 4, 0
    {
      var callee, paren, arguments := expr.callee, expr.paren, expr.arguments;
      var fn := Evaluate(fuel, callee);
      if fn.Abrupt? {
        return fn;
      }
      ghost var afterCallee := heap.frames;
      var values: seq<Value> := [];
      var i := 0;
      while i < |arguments|
        invariant 0 <= i <= |arguments|
        invariant Valid() && environment == old(environment)
        invariant Grows(afterCallee, heap.frames) && ValueLive(fn.value, |heap.frames|)
        invariant forall k :: 0 <= k < |values| ==> ValueLive(values[k], |heap.frames|)
        invariant EvalArgs(fuel, text, afterCallee, environment, arguments) ==
          Joined(values, EvalArgs(fuel, text, heap.frames, environment, arguments[i..]))
      {
        assert arguments[i..][1..] == arguments[i + 1..];
        ghost var before := heap.frames;
        var argument := Evaluate(fuel, arguments[i]);
        if argument.Abrupt? {
          return argument;
        }
        JoinedPrepend(values, argument.value, EvalArgs(fuel, text, heap.frames, environment, arguments[i + 1..]));
        StillLive(values, |before|, |heap.frames|);
        values := values + [argument.value];
        i := i + 1;
      }
      assert arguments[i..] == [];
      assert values + [] == values;
      c := CallValue(fuel, fn.value, paren, values);
    }

    /** The checks of visitCallExpr on the evaluated callee and arguments. */
    method CallValue(fuel: nat, callee: Value, paren: Token, arguments: seq<Value>) returns (c: Completion)
      requires Valid() && ValueLive(callee, |heap.frames|)
      requires forall k :: 0 <= k < |arguments| ==> ValueLive(arguments[k], |heap.frames|)
      modifies this, heap
      ensures Valid() && environment == old(environment)
      ensures Step(c, heap.frames) == Invoke(fuel, text, old(heap.frames), callee, paren, arguments)
      decreases fuel, 3, 0
    {
      if !callee.Function? {
        return Abrupt(Thrown(RuntimeError(paren, NotCallable)));
      }
      if |arguments| != Arity(callee.f) {
        return Abrupt(Thrown(RuntimeError(paren, ArityMismatch(Arity(callee.f), |arguments|))));
      }
      c := Call(fuel, callee.f, arguments);
    }

    /**
     * LoxFunction.call: a new environment enclosed by the closure, each
     * parameter defined in it, the body run there by executeBlock; a Return
     * gives its value and finishing the body gives nil.
     */
    method Call(fuel: nat, f: LoxFunction, arguments: seq<Value>) returns (c: Completion)
      requires Valid() && f.closure < |heap.frames| && |arguments| == |f.params|
      requires forall k :: 0 <= k < |arguments| ==> ValueLive(arguments[k], |heap.frames|)
      modifies this, heap
      ensures Valid() && environment == old(environment)
      ensures Step(c, heap.frames) == CallFunction(fuel, text, old(heap.frames), f, arguments)
      decreases fuel, 2, 0
    {
      AllocateOk(heap.frames, f.closure);
      StillLive(arguments, |heap.frames|, |heap.frames| + 1);
      var env := heap.NewEnvironment(f.closure);
      ghost var bindStart := heap.frames;
      var i := 0;
      while i < |f.params|
        invariant 0 <= i <= |f.params|
        invariant Ready(heap.frames, env) && |heap.frames| == |bindStart| && Grows(bindStart, heap.frames)
        invariant env == |old(heap.frames)| && environment == old(environment)
        invariant BindParams(bindStart, env, f.params, arguments) ==
          BindParams(heap.frames, env, f.params[i..], arguments[i..])
      {
        assert f.params[i..][1..] == f.params[i + 1..] && arguments[i..][1..] == arguments[i + 1..];
        DefineOk(heap.frames, env, f.params[i].lexeme, arguments[i]);
        heap.Define(env, f.params[i].lexeme, arguments[i]);
        i := i + 1;
      }
      c := ExecuteBlock(fuel, f.body, env);
      match c
      case Abrupt(ReturnSignal(v)) =>
        c := Normal(v);
      case Abrupt(_) =>
      case Normal(_) =>
        c := Normal(Nil);
    }

    // -------------------------------------------------------------------------
    // Statements

    method Execute(fuel: nat, s: Stmt) returns (c: Completion)
      requires Valid()
      modifies this, heap
      ensures Valid() && environment == old(environment)
      ensures Step(c, heap.frames) == Exec(fuel, text, old(heap.frames), environment, s)
      decreases fuel, 0, 0
    {
      if fuel == 0 {
        return Abrupt(OutOfFuel);
      }
      match s
      case Expression(_) =>
        c := VisitExpression(fuel - 1, s);
      case Print(_) =>
        c := VisitPrint(fuel - 1, s);
      case Var(_, _) =>
        c := VisitVar(fuel - 1, s);
      case Block(_) =>
        c := VisitBlock(fuel - 1, s);
      case If(_, _) =>
        c := Abrupt(Thrown(BareIf()));
      case IfElse(_, _) =>
        c := VisitIfElse(fuel - 1, s);
      case While(_, _) =>
        c := VisitWhile(fuel - 1, s);
      case LoopKeyword(token) =>
        c := Abrupt(LoopSignal(token));
      case Function(_) =>
        c := VisitFunction(s);
      case Return(_, _) =>
        c := VisitReturn(fuel - 1, s);
      case Class(_, _, _) =>
        c := Abrupt(NoVisitor);
      case Absent =>
        c := Abrupt(NullPointer);
    }

    /** visitExpressionStmt: the value is discarded. */
    method VisitExpression(fuel: nat, stmt: Stmt) returns (c: Completion)
      requires Valid() && stmt.Expression?
      modifies this, heap
      ensures Valid() && environment == old(environment)
      ensures Step(c, heap.frames) == Discard(Eval(fuel, text, old(heap.frames), environment, stmt.expression))
      decreases fuel, 1, 0
    {
      c := Evaluate(fuel, stmt.expression);
      if c.Normal? {
        c := Normal(Nil);
      }
    }

    /** visitPrintStmt: the value is evaluated; writing its text to standard output is not modelled. */
    method VisitPrint(fuel: nat, stmt: Stmt) returns (c: Completion)
      requires Valid() && stmt.Print?
      modifies this, heap
      ensures Valid() && environment == old(environment)
      ensures Step(c, heap.frames) == Discard(Eval(fuel, text, old(heap.frames), environment, stmt.expression))
      decreases fuel, 1, 0
    {
      c := Evaluate(fuel, stmt.expression);
      if c.Normal? {
        c := Normal(Nil);
      }
    }

    /** visitBlockStmt: the statements in a new environment enclosed by the current one. */
    method VisitBlock(fuel: nat, stmt: Stmt) returns (c: Completion)
      requires Valid() && stmt.Block?
      modifies this, heap
      ensures Valid() && environment == old(environment)
      ensures |old(heap.frames)| < |heap.frames|
      ensures Step(c, heap.frames) ==
        ExecBlock(fuel, text, Allocate(old(heap.frames), environment), |old(heap.frames)|, stmt.statements)
      decreases fuel, 2, 0
    {
      AllocateOk(heap.frames, environment);
      var env := heap.NewEnvironment(environment);
      c := ExecuteBlock(fuel, stmt.statements, env);
    }

    /** visitFunctionStmt: a LoxFunction closing over the current environment, defined under its name. */
    method VisitFunction(stmt: Stmt) returns (c: Completion)
      requires Valid() && stmt.Function?
      modifies heap
      ensures Valid()
      ensures c == Normal(Nil)
      ensures heap.frames ==
        DefineIn(old(heap.frames), environment, stmt.decl.name.lexeme, Value.Function(Declared(stmt.decl, environment)))
    {
      var closure := Value.Function(Declared(stmt.decl, environment));
      DefineOk(heap.frames, environment, stmt.decl.name.lexeme, closure);
      heap.Define(environment, stmt.decl.name.lexeme, closure);
      c := Normal(Nil);
    }

    method VisitVar(fuel: nat, stmt: Stmt) returns (c: Completion)
      requires Valid() && stmt.Var?
      modifies this, heap
      ensures Valid() && environment == old(environment)
      ensures Step(c, heap.frames) == ExecVar(fuel, text, old(heap.frames), environment, stmt.name, stmt.initializer)
      decreases fuel, 1, 0
    {
      var name, initializer := stmt.name, stmt.initializer;
      if initializer.None? {
        DeclareOk(heap.frames, environment, name.lexeme);
        heap.Declare(environment, name.lexeme);
      } else {
        c := Evaluate(fuel, initializer.value);
        if c.Abrupt? {
          return;
        }
        DefineOk(heap.frames, environment, name.lexeme, c.value);
        heap.Define(environment, name.lexeme, c.value);
      }
      c := Normal(Nil);
    }

    method VisitReturn(fuel: nat, stmt: Stmt) returns (c: Completion)
      requires Valid() && stmt.Return?
      modifies this, heap
      ensures Valid() && environment == old(environment)
      ensures Step(c, heap.frames) == ExecReturn(fuel, text, old(heap.frames), environment, stmt.value)
      decreases fuel, 1, 0
    {
      var value := stmt.value;
      var v := Nil;
      if value.Some? {
        c := Evaluate(fuel, value.value);
        if c.Abrupt? {
          return;
        }
        v := c.value;
      }
      c := Abrupt(ReturnSignal(v));
    }

    /**
     * executeBlock: run the statements in environment env and put the
     * previous environment back however they end.
     */
    method ExecuteBlock(fuel: nat, statements: seq<Stmt>, env: nat) returns (c: Completion)
      requires Valid() && env < |heap.frames|
      modifies this, heap
      ensures Valid() && environment == old(environment)
      ensures Step(c, heap.frames) == ExecBlock(fuel, text, old(heap.frames), env, statements)
      decreases fuel, 1, |statements|
    {
      var previous := environment;
      environment := env;
      c := Normal(Nil);
      var i := 0;
      while i < |statements|
        invariant 0 <= i <= |statements|
        invariant Valid() && environment == env && previous < |heap.frames|
        invariant ExecBlock(fuel, text, old(heap.frames), env, statements) ==
          ExecBlock(fuel, text, heap.frames, env, statements[i..])
      {
        assert statements[i..][1..] == statements[i + 1..];
        c := Execute(fuel, statements[i]);
        if c.Abrupt? {
          environment := previous;
          return;
        }
        i := i + 1;
      }
      c := Normal(Nil);
      environment := previous;
    }

    /** visitIfElseStmt: try the branches in order and stop after the first truthy one. */
    method VisitIfElse(fuel: nat, stmt: Stmt) returns (c: Completion)
      requires Valid() && stmt.IfElse?
      modifies this, heap
      ensures Valid() && environment == old(environment)
      ensures Step(c, heap.frames) == ExecIfElse(fuel, text, old(heap.frames), environment, stmt.ifBranches, stmt.elseBranch)
      decreases fuel, 1, |stmt.ifBranches|
    {
      var branches, elseBranch := stmt.ifBranches, stmt.elseBranch;
      var hasExecutedBranch := false;
      c := Normal(Nil);
      var i := 0;
      while i < |branches|
        invariant 0 <= i <= |branches|
        invariant Valid() && environment == old(environment) && !hasExecutedBranch
        invariant ExecIfElse(fuel, text, old(heap.frames), environment, branches, elseBranch) ==
          ExecIfElse(fuel, text, heap.frames, environment, branches[i..], elseBranch)
      {
        assert branches[i..][1..] == branches[i + 1..];
        var condition := Evaluate(fuel, branches[i].condition);
        if condition.Abrupt? {
          return condition;
        }
        if IsTruthy(condition.value) {
          c := Execute(fuel, branches[i].body);
          hasExecutedBranch := true;
          break;
        }
        i := i + 1;
      }
      if !hasExecutedBranch {
        assert branches[i..] == [];
        if elseBranch.Some? {
          c := Execute(fuel, elseBranch.value);
        }
      }
    }

    /**
     * visitWhileStmt. The try block runs the body and re-evaluates the
     * condition; a continue re-evaluates it outside the try block. Each
     * iteration costs one unit of fuel.
     */
    method VisitWhile(fuel: nat, stmt: Stmt) returns (c: Completion)
      requires Valid() && stmt.While?
      modifies this, heap
      ensures Valid() && environment == old(environment)
      ensures Step(c, heap.frames) == ExecWhile(fuel, text, old(heap.frames), environment, stmt.condition, stmt.body)
      decreases fuel, 2, 0
    {
      var condition, body := stmt.condition, stmt.body;
      c := Evaluate(fuel, condition);
      if c.Abrupt? {
        return;
      }
      var value := c.value;
      var remaining: nat := fuel;
      while IsTruthy(value)
        invariant remaining <= fuel
        invariant Valid() && environment == old(environment)
        invariant ExecWhile(fuel, text, old(heap.frames), environment, condition, body) ==
          Iterate(remaining, text, heap.frames, environment, condition, body, value)
        decreases remaining
      {
        if remaining == 0 {
          return Abrupt(OutOfFuel);
        }
        var attempt := TryBody(remaining, stmt);
        if attempt.Normal? {
          value := attempt.value;
        } else if attempt.signal.LoopSignal? {
          var token := attempt.signal.token;
          if token.kind.CONTINUE? {
            c := Evaluate(remaining, condition);
            if c.Abrupt? {
              return;
            }
            value := c.value;
          } else if token.kind.BREAK? {
            break;
          } else {
            return Abrupt(Thrown(RuntimeError(token, UnknownLoopInterrupt)));
          }
        } else {
          return attempt;
        }
        remaining := remaining - 1;
      }
      c := Normal(Nil);
    }

    /** The try block of visitWhileStmt: the body, then the condition again. */
    method TryBody(fuel: nat, stmt: Stmt) returns (c: Completion)
      requires Valid() && stmt.While?
      modifies this, heap
      ensures Valid() && environment == old(environment)
      ensures Step(c, heap.frames) == Evaluation.TryBody(fuel, text, old(heap.frames), environment, stmt.condition, stmt.body)
      decreases fuel, 0, 1
    {
      c := Execute(fuel, stmt.body);
      if c.Normal? {
        c := Evaluate(fuel, stmt.condition);
      }
    }

    /**
     * interpret, without the interactive echo: the statements in the current
     * environment until one completes abruptly. A RuntimeError is caught and
     * reported; any other signal escapes.
     */
    method Interpret(fuel: nat, statements: seq<Stmt>) returns (reported: Option<RuntimeError>, escaped: Option<Signal>)
      requires Valid()
      modifies this, heap
      ensures Valid() && environment == old(environment)
      ensures var r := ExecBlock(fuel, text, old(heap.frames), environment, statements);
        heap.frames == r.frames &&
        reported == (if r.completion.Abrupt? && r.completion.signal.Thrown? then Some(r.completion.signal.error) else None) &&
        escaped == (if r.completion.Abrupt? && !r.completion.signal.Thrown? then Some(r.completion.signal) else None)
    {
      reported, escaped := None, None;
      var i := 0;
      while i < |statements|
        invariant 0 <= i <= |statements|
        invariant Valid() && environment == old(environment)
        invariant ExecBlock(fuel, text, old(heap.frames), environment, statements) ==
          ExecBlock(fuel, text, heap.frames, environment, statements[i..])
      {
        assert statements[i..][1..] == statements[i + 1..];
        var c := Execute(fuel, statements[i]);
        if c.Abrupt? {
          if c.signal.Thrown? {
            reported := Some(c.signal.error);
          } else {
            escaped := Some(c.signal);
          }
          return;
        }
        i := i + 1;
      }
    }
  }

  /** The arguments evaluated so far, followed by the rest of them, unless their evaluation stopped. */
  function Joined(done: seq<Value>, rest: Evaluated): Evaluated {
    if rest.stopped.Some? then rest else Evaluated(done + rest.values, None, rest.frames)
  }

  lemma JoinedPrepend(done: seq<Value>, v: Value, rest: Evaluated)
    ensures Joined(done, Prepend(v, rest)) == Joined(done + [v], rest)
  {
    if rest.stopped.None? {
      assert done + ([v] + rest.values) == done + [v] + rest.values;
    }
  }
}
