/**
 * Properties of the jlox resolver: hop counts, the lifecycle of a scope
 * entry, the warnings of endScope, the errors for return, this and super,
 * and the scope-stack invariant that every block, function and class leaves
 * the stack as it found it. The one exception to that invariant is a class
 * that names itself as its superclass, which pops a scope it never pushed.
 */
module ResolverProperties {
  import opened Common
  import opened Syntax
  import opened Resolver

  // ---------------------------------------------------------------------------
  // Scope entries

  /**
   * Reading a name held by the innermost scope marks it USED, reporting an
   * error first when it was only DECLARED; a name the innermost scope does not
   * hold leaves the scopes and the errors alone. Either way the hop count is
   * recorded as resolveLocal does.
   */
  lemma ReadMarksUsed(st: RState, ref: VarRef)
    ensures var r := VariableRead(st, ref);
      var name := ref.name.lexeme;
      r.currentFunction == st.currentFunction && r.currentClass == st.currentClass &&
      r.warnings == st.warnings && |r.scopes| == |st.scopes| &&
      r.locals == WithLocal(st, ref.id, ref.name).locals &&
      if |st.scopes| > 0 && name in st.scopes[|st.scopes| - 1] then
        var top := st.scopes[|st.scopes| - 1];
        r.scopes == st.scopes[|st.scopes| - 1 := top[name := top[name].(status := USED)]] &&
        r.errors == st.errors +
          (if top[name].status == DECLARED
           then [ErrorAt(ref.name, ReadInOwnInitializer)]
           else [])
      else
        r.scopes == st.scopes && r.errors == st.errors
  {
    var name := ref.name.lexeme;
    if |st.scopes| > 0 && name in st.scopes[|st.scopes| - 1] {
      var entry := st.scopes[|st.scopes| - 1][name];
      var reported := if entry.status == DECLARED then ReportError(st, ref.name, ReadInOwnInitializer) else st;
      var marked := SetTop(reported, name, entry.(status := USED));
      assert Innermost(st.scopes, name) == Some(0);
      assert Innermost(marked.scopes, name) == Some(0);
    }
  }

  /** A fresh declaration followed by its definition leaves a DEFINED entry and no error. */
  lemma DeclareThenDefine(st: RState, name: Token)
    requires |st.scopes| > 0 && name.lexeme !in st.scopes[|st.scopes| - 1]
    ensures var r := Defined(Declared(st, name), name);
      r.Ok? && r.value.errors == st.errors &&
      r.value.scopes[|st.scopes| - 1] == st.scopes[|st.scopes| - 1][name.lexeme := VarState(DEFINED, name)] &&
      r.value.scopes[..|st.scopes| - 1] == st.scopes[..|st.scopes| - 1]
  {
  }

  /** An entry is warned about exactly when it was never read and is not this or super. */
  lemma UnusedWarningsExact(scope: Scope, name: string)
    requires name in scope
    ensures scope[name].status != USED && !IsClassKeyword(name) ==>
      WarningAt(scope[name].declaration, UnusedVariable) in UnusedWarnings(scope)
  {
  }

  /** A scope whose entries were all read, or are this or super, gives no warning. */
  lemma NoUnusedNoWarnings(scope: Scope)
    requires forall k :: k in scope ==> scope[k].status == USED || IsClassKeyword(k)
    ensures UnusedWarnings(scope) == {}
  {
  }

  /** Every warning of endScope belongs to an entry never read that is not this or super. */
  lemma WarningsHaveUnusedEntries(scope: Scope, w: Diagnostic)
    requires w in UnusedWarnings(scope)
    ensures exists k :: (k in scope && scope[k].status != USED && !IsClassKeyword(k) &&
      w == WarningAt(scope[k].declaration, UnusedVariable))
  {
  }

  // ---------------------------------------------------------------------------
  // Errors for return, this and super

  /** return at top level reports, then still resolves its value, if it has one. */
  lemma TopLevelReturn(st: RState, keyword: Token, value: Option<Expr>)
    requires st.currentFunction == NoFunction
    ensures var reported := st.(errors := st.errors + [ErrorAt(keyword, ReturnAtTopLevel)]);
      StmtResolved(st, Return(keyword, value)) ==
        if value.Some? then ExprResolved(reported, value.value) else Ok(reported)
  {
    var reported := ReportError(st, keyword, ReturnAtTopLevel);
    assert st.currentFunction != InitializerBody;
    if value.Some? {
      assert StmtResolved(st, Return(keyword, value)) == ExprResolved(reported, value.value);
    }
  }

  /** return with a value inside an initializer reports before resolving the value. */
  lemma ReturnValueFromInitializer(st: RState, keyword: Token, value: Expr)
    requires st.currentFunction == InitializerBody
    ensures StmtResolved(st, Return(keyword, Some(value))) ==
      ExprResolved(st.(errors := st.errors + [ErrorAt(keyword, ReturnFromInitializer)]), value)
  {
    var reported := st.(errors := st.errors + [ErrorAt(keyword, ReturnFromInitializer)]);
    assert st.currentFunction != NoFunction;
    assert reported == ReportError(st, keyword, ReturnFromInitializer);
    assert StmtResolved(st, Return(keyword, Some(value))) == ExprResolved(reported, value);
  }

  /** Inside any other function a return reports nothing. */
  lemma ReturnInFunction(st: RState, keyword: Token, value: Option<Expr>)
    requires st.currentFunction in {FunctionBody, MethodBody}
    ensures StmtResolved(st, Return(keyword, value)) ==
      if value.Some? then ExprResolved(st, value.value) else Ok(st)
  {
  }

  /** A method is an initializer exactly when it is named init. */
  lemma InitializerIffInit(decl: FunDecl)
    ensures MethodKind(decl) == InitializerBody <==> decl.name.lexeme == "init"
    ensures MethodKind(decl) != InitializerBody ==> MethodKind(decl) == MethodBody
  {
  }

  lemma ThisErrors(st: RState, id: nat, keyword: Token)
    ensures var r := ExprResolved(st, This(id, keyword));
      r.Ok? && r.value.errors == st.errors +
        (if st.currentClass == NoClass then [ErrorAt(keyword, ThisOutsideClass)] else [])
  {
  }

  lemma SuperErrors(st: RState, id: nat, keyword: Token, methodName: Token)
    ensures var r := ExprResolved(st, Super(id, keyword, methodName));
      r.Ok? && r.value.errors == st.errors +
        (if st.currentClass == NoClass then [ErrorAt(keyword, SuperOutsideClass)]
         else if st.currentClass == ClassBody then [ErrorAt(keyword, SuperWithoutSuperclass)]
         else [])
  {
  }

  // ---------------------------------------------------------------------------
  // The scope-stack invariant

  /**
   * A tree the resolver can walk without an exception: no null statement
   * (a declaration the parser failed on) and no class naming itself as its
   * superclass.
   */
  predicate ResolvableExpr(e: Expr)
    decreases e
  {
    match e
    case Assign(_, _, value) => ResolvableExpr(value)
    case Binary(left, _, right) => ResolvableExpr(left) && ResolvableExpr(right)
    case Call(callee, _, arguments) =>
      ResolvableExpr(callee) && forall a | a in arguments :: ResolvableExpr(a)
    case Grouping(inner) => ResolvableExpr(inner)
    case Literal(_) => true
    case Logical(left, _, right) => ResolvableExpr(left) && ResolvableExpr(right)
    case Unary(_, right) => ResolvableExpr(right)
    case Ternary(left, center, right, _, _) =>
      ResolvableExpr(left) && ResolvableExpr(center) && ResolvableExpr(right)
    case Variable(_) => true
    case Increment(_, _, _) => true
    case Fun(_, _, body) => forall s | s in body :: ResolvableStmt(s)
    case Get(target, _) => ResolvableExpr(target)
    case Set(target, _, value) => ResolvableExpr(target) && ResolvableExpr(value)
    case This(_, _) => true
    case Super(_, _, _) => true
  }

  predicate ResolvableStmt(s: Stmt)
    decreases s
  {
    match s
    case Block(statements) => forall t | t in statements :: ResolvableStmt(t)
    case Expression(e) => ResolvableExpr(e)
    case Function(decl) => forall t | t in decl.body :: ResolvableStmt(t)
    case IfElse(branches, elseBranch) =>
      (forall b | b in branches :: ResolvableExpr(b.condition) && ResolvableStmt(b.body)) &&
      (elseBranch.Some? ==> ResolvableStmt(elseBranch.value))
    case If(condition, body) => ResolvableExpr(condition) && ResolvableStmt(body)
    case Print(e) => ResolvableExpr(e)
    case Return(_, value) => value.Some? ==> ResolvableExpr(value.value)
    case Var(_, initializer) => initializer.Some? ==> ResolvableExpr(initializer.value)
    case While(condition, body) => ResolvableExpr(condition) && ResolvableStmt(body)
    case LoopKeyword(_) => true
    case Class(name, superclass, methods) =>
      (superclass.Some? ==> superclass.value.name.lexeme != name.lexeme) &&
      forall m | m in methods :: forall t | t in m.body :: ResolvableStmt(t)
    case Absent => false
  }

  /**
   * b is a after a balanced walk: the same stack height and function and class
   * kinds, every scope still holding the names it held, and the diagnostics
   * only added to.
   */
  ghost predicate Balanced(a: RState, b: RState) {
    |b.scopes| == |a.scopes| &&
    b.currentFunction == a.currentFunction && b.currentClass == a.currentClass &&
    (forall i :: 0 <= i < |a.scopes| ==> a.scopes[i].Keys <= b.scopes[i].Keys) &&
    a.errors <= b.errors && a.warnings <= b.warnings
  }

  lemma BalancedTrans(a: RState, b: RState, c: RState)
    requires Balanced(a, b) && Balanced(b, c)
    ensures Balanced(a, c)
  {
  }

  /** A name declared in the innermost scope survives a balanced walk, so define finds it. */
  lemma DefineAfterWalk(st: RState, name: Token, walked: RState)
    requires Balanced(Declared(st, name), walked)
    ensures Defined(walked, name).Ok? && Balanced(st, Defined(walked, name).value)
  {
    if |st.scopes| > 0 {
      assert name.lexeme in Declared(st, name).scopes[|st.scopes| - 1];
    }
  }

  lemma DeclaredBalanced(st: RState, name: Token)
    ensures Balanced(st, Declared(st, name))
  {
  }

  lemma ReadBalanced(st: RState, ref: VarRef)
    ensures Balanced(st, VariableRead(st, ref))
  {
  }

  /** A scope pushed and walked in balance can be popped, leaving st balanced. */
  lemma PushPop(st: RState, inner: RState)
    requires Balanced(Pushed(st), inner)
    ensures Popped(inner).Ok? && Balanced(st, Popped(inner).value)
  {
    var p := Popped(inner).value;
    forall i | 0 <= i < |st.scopes|
      ensures st.scopes[i].Keys <= p.scopes[i].Keys
    {
      assert Pushed(st).scopes[i] == st.scopes[i];
    }
  }

  lemma {:induction false} ExprBalanced(st: RState, e: Expr)
    requires ResolvableExpr(e)
    ensures ExprResolved(st, e).Ok? && Balanced(st, ExprResolved(st, e).value)
    decreases e, 0
  {
    match e
    case Assign(_, _, value) =>
      ExprBalanced(st, value);
    case Binary(left, _, right) =>
      ExprBalanced(st, left);
      var s1 := ExprResolved(st, left).value;
      ExprBalanced(s1, right);
      BalancedTrans(st, s1, ExprResolved(s1, right).value);
    case Call(callee, _, arguments) =>
      ExprBalanced(st, callee);
      var s1 := ExprResolved(st, callee).value;
      ExprsBalanced(s1, arguments);
      BalancedTrans(st, s1, ExprsResolved(s1, arguments).value);
    case Grouping(inner) =>
      ExprBalanced(st, inner);
    case Literal(_) =>
    case Logical(left, _, right) =>
      ExprBalanced(st, left);
      var s1 := ExprResolved(st, left).value;
      ExprBalanced(s1, right);
      BalancedTrans(st, s1, ExprResolved(s1, right).value);
    case Unary(_, right) =>
      ExprBalanced(st, right);
    case Ternary(left, center, right, _, _) =>
      ExprBalanced(st, left);
      var s1 := ExprResolved(st, left).value;
      ExprBalanced(s1, center);
      var s2 := ExprResolved(s1, center).value;
      ExprBalanced(s2, right);
      BalancedTrans(st, s1, s2);
      BalancedTrans(st, s2, ExprResolved(s2, right).value);
    case Variable(ref) =>
      ReadBalanced(st, ref);
    case Increment(identifier, _, _) =>
      ReadBalanced(st, identifier);
    case Fun(_, params, body) =>
      FunctionBalanced(st, params, body, FunctionBody);
    case Get(target, _) =>
      ExprBalanced(st, target);
    case Set(target, _, value) =>
      ExprBalanced(st, value);
      var s1 := ExprResolved(st, value).value;
      ExprBalanced(s1, target);
      BalancedTrans(st, s1, ExprResolved(s1, target).value);
    case This(id, keyword) =>
      ThisBalanced(st, id, keyword);
    case Super(id, keyword, methodName) =>
      SuperBalanced(st, id, keyword, methodName);
  }

  /** Reporting an error only adds to the errors. */
  lemma ReportBalanced(st: RState, t: Token, message: string)
    ensures Balanced(st, ReportError(st, t, message))
  {
  }

  /** Recording a hop count changes nothing the balance is about. */
  lemma LocalBalanced(a: RState, b: RState, id: nat, name: Token)
    requires Balanced(a, b)
    ensures Balanced(a, WithLocal(b, id, name))
  {
  }

  /** this records a hop count and may report an error; the scopes stay as they were. */
  lemma ThisBalanced(st: RState, id: nat, keyword: Token)
    ensures ExprResolved(st, This(id, keyword)).Ok? && Balanced(st, ExprResolved(st, This(id, keyword)).value)
  {
    var m := ThisOutsideClass;
    var reported := if st.currentClass == NoClass then ReportError(st, keyword, m) else st;
    ReportBalanced(st, keyword, m);
    LocalBalanced(st, reported, id, keyword);
  }

  /** super records a hop count and may report an error; the scopes stay as they were. */
  lemma SuperBalanced(st: RState, id: nat, keyword: Token, methodName: Token)
    ensures ExprResolved(st, Super(id, keyword, methodName)).Ok? && Balanced(st, ExprResolved(st, Super(id, keyword, methodName)).value)
  {
    var m1 := SuperOutsideClass;
    var m2 := SuperWithoutSuperclass;
    var reported :=
      if st.currentClass == NoClass then ReportError(st, keyword, m1)
      else if st.currentClass != SubclassBody then ReportError(st, keyword, m2)
      else st;
    ReportBalanced(st, keyword, m1);
    ReportBalanced(st, keyword, m2);
    LocalBalanced(st, reported, id, keyword);
  }

  lemma {:induction false} ExprsBalanced(st: RState, es: seq<Expr>)
    requires forall a | a in es :: ResolvableExpr(a)
    ensures ExprsResolved(st, es).Ok? && Balanced(st, ExprsResolved(st, es).value)
    decreases es, 0
  {
    if es != [] {
      ExprBalanced(st, es[0]);
      var s1 := ExprResolved(st, es[0]).value;
      ExprsBalanced(s1, es[1..]);
      BalancedTrans(st, s1, ExprsResolved(s1, es[1..]).value);
    }
  }

  lemma {:induction false} StmtsBalanced(st: RState, ss: seq<Stmt>)
    requires forall t | t in ss :: ResolvableStmt(t)
    ensures StmtsResolved(st, ss).Ok? && Balanced(st, StmtsResolved(st, ss).value)
    decreases ss, 0
  {
    if ss != [] {
      StmtBalanced(st, ss[0]);
      var s1 := StmtResolved(st, ss[0]).value;
      StmtsBalanced(s1, ss[1..]);
      BalancedTrans(st, s1, StmtsResolved(s1, ss[1..]).value);
    }
  }

  lemma {:induction false} StmtBalanced(st: RState, s: Stmt)
    requires ResolvableStmt(s)
    ensures StmtResolved(st, s).Ok? && Balanced(st, StmtResolved(st, s).value)
    decreases s, 0
  {
    match s
    case Block(statements) =>
      StmtsBalanced(Pushed(st), statements);
      PushPop(st, StmtsResolved(Pushed(st), statements).value);
    case Expression(e) =>
      ExprBalanced(st, e);
    case Function(decl) =>
      DefineAfterWalk(st, decl.name, Declared(st, decl.name));
      var s1 := Defined(Declared(st, decl.name), decl.name).value;
      FunctionBalanced(s1, decl.params, decl.body, FunctionBody);
      BalancedTrans(st, s1, FunctionResolved(s1, decl.params, decl.body, FunctionBody).value);
    case IfElse(branches, elseBranch) =>
      BranchesBalanced(st, branches);
      var s1 := BranchesResolved(st, branches).value;
      if elseBranch.Some? {
        StmtBalanced(s1, elseBranch.value);
        BalancedTrans(st, s1, StmtResolved(s1, elseBranch.value).value);
      }
    case If(condition, body) =>
      ExprBalanced(st, condition);
      var s1 := ExprResolved(st, condition).value;
      StmtBalanced(s1, body);
      BalancedTrans(st, s1, StmtResolved(s1, body).value);
    case Print(e) =>
      ExprBalanced(st, e);
    case Return(keyword, value) =>
      var m1 := ReturnAtTopLevel;
      var m2 := ReturnFromInitializer;
      var s1 := if st.currentFunction == NoFunction then ReportError(st, keyword, m1) else st;
      ReportBalanced(st, keyword, m1);
      if value.Some? {
        var s2 := if st.currentFunction == InitializerBody then ReportError(s1, keyword, m2) else s1;
        ReportBalanced(s1, keyword, m2);
        BalancedTrans(st, s1, s2);
        ExprBalanced(s2, value.value);
        BalancedTrans(st, s2, ExprResolved(s2, value.value).value);
      }
    case Var(name, initializer) =>
      DeclaredBalanced(st, name);
      var s1 := Declared(st, name);
      if initializer.Some? {
        ExprBalanced(s1, initializer.value);
        DefineAfterWalk(st, name, ExprResolved(s1, initializer.value).value);
      } else {
        DefineAfterWalk(st, name, s1);
      }
    case While(condition, body) =>
      ExprBalanced(st, condition);
      var s1 := ExprResolved(st, condition).value;
      StmtBalanced(s1, body);
      BalancedTrans(st, s1, StmtResolved(s1, body).value);
    case LoopKeyword(_) =>
    case Class(name, superclass, methods) =>
      ClassBalanced(st, name, superclass, methods);
  }

  lemma {:induction false} BranchBalanced(st: RState, b: Branch)
    requires ResolvableExpr(b.condition) && ResolvableStmt(b.body)
    ensures BranchResolved(st, b).Ok? && Balanced(st, BranchResolved(st, b).value)
    decreases b, 0
  {
    ExprBalanced(st, b.condition);
    var s1 := ExprResolved(st, b.condition).value;
    StmtBalanced(s1, b.body);
    BalancedTrans(st, s1, StmtResolved(s1, b.body).value);
  }

  lemma {:induction false} BranchesBalanced(st: RState, branches: seq<Branch>)
    requires forall b | b in branches :: ResolvableExpr(b.condition) && ResolvableStmt(b.body)
    ensures BranchesResolved(st, branches).Ok? && Balanced(st, BranchesResolved(st, branches).value)
    decreases branches, 0
  {
    if branches != [] {
      BranchBalanced(st, branches[0]);
      var s1 := BranchResolved(st, branches[0]).value;
      BranchesBalanced(s1, branches[1..]);
      BalancedTrans(st, s1, BranchesResolved(s1, branches[1..]).value);
    }
  }

  /** Parameters go into the innermost scope, which the function pushed. */
  lemma {:induction false} ParamsBalanced(st: RState, params: seq<Token>)
    requires |st.scopes| > 0
    ensures ParamsDeclared(st, params).Ok? && Balanced(st, ParamsDeclared(st, params).value)
    decreases |params|
  {
    if params != [] {
      DeclaredBalanced(st, params[0]);
      DefineAfterWalk(st, params[0], Declared(st, params[0]));
      var s1 := Defined(Declared(st, params[0]), params[0]).value;
      ParamsBalanced(s1, params[1..]);
      BalancedTrans(st, s1, ParamsDeclared(s1, params[1..]).value);
    }
  }

  lemma {:induction false} FunctionBalanced(st: RState, params: seq<Token>, body: seq<Stmt>, kind: FunctionType)
    requires forall t | t in body :: ResolvableStmt(t)
    ensures FunctionResolved(st, params, body, kind).Ok?
    ensures Balanced(st, FunctionResolved(st, params, body, kind).value)
    decreases body, 1
  {
    var entered := Pushed(st.(currentFunction := kind));
    ParamsBalanced(entered, params);
    var s1 := ParamsDeclared(entered, params).value;
    StmtsBalanced(s1, body);
    var s2 := StmtsResolved(s1, body).value;
    BalancedTrans(entered, s1, s2);
    PushPop(st.(currentFunction := kind), s2);
  }

  lemma {:induction false} MethodsBalanced(st: RState, methods: seq<FunDecl>)
    requires forall m | m in methods :: forall t | t in m.body :: ResolvableStmt(t)
    ensures MethodsResolved(st, methods).Ok? && Balanced(st, MethodsResolved(st, methods).value)
    decreases methods, 0
  {
    if methods != [] {
      var m := methods[0];
      FunctionBalanced(st, m.params, m.body, MethodKind(m));
      var s1 := FunctionResolved(st, m.params, m.body, MethodKind(m)).value;
      MethodsBalanced(s1, methods[1..]);
      BalancedTrans(st, s1, MethodsResolved(s1, methods[1..]).value);
    }
  }

  /**
   * What a class's prologue leaves: the class name defined and, for a
   * distinct superclass, one more scope holding only "super".
   */
  lemma ClassOpenedShape(st: RState, name: Token, superclass: Option<VarRef>)
    requires superclass.Some? ==> superclass.value.name.lexeme != name.lexeme
    ensures var r := ClassOpened(st, name, superclass);
      var d := Defined(Declared(st.(currentClass := ClassBody), name), name);
      d.Ok? && Balanced(st.(currentClass := ClassBody), d.value) && r.Ok? &&
      if superclass.None? then r.value == d.value
      else
        r.value.currentClass == SubclassBody && r.value.currentFunction == st.currentFunction &&
        |r.value.scopes| == |st.scopes| + 1 &&
        r.value.scopes[|st.scopes|] == map["super" := VarState(DEFINED, name)] &&
        Balanced(d.value.(currentClass := SubclassBody), r.value.(scopes := r.value.scopes[..|st.scopes|]))
  {
    var s0 := st.(currentClass := ClassBody);
    DeclaredBalanced(s0, name);
    DefineAfterWalk(s0, name, Declared(s0, name));
    if superclass.Some? {
      var d := Defined(Declared(s0, name), name).value;
      ReadBalanced(d.(currentClass := SubclassBody), superclass.value);
    }
  }

  /** The methods, resolved in a pushed scope binding "this", leave the enclosing state balanced. */
  lemma {:induction false} ClassBodyBalanced(s1: RState, name: Token, methods: seq<FunDecl>)
    requires forall m | m in methods :: forall t | t in m.body :: ResolvableStmt(t)
    ensures var s2 := SetTop(Pushed(s1), "this", VarState(DEFINED, name));
      var s3 := MethodsResolved(s2, methods);
      s3.Ok? && Popped(s3.value).Ok? && Balanced(s1, Popped(s3.value).value)
    decreases methods, 1
  {
    var s2 := SetTop(Pushed(s1), "this", VarState(DEFINED, name));
    assert Balanced(Pushed(s1), s2) by {
      forall i | 0 <= i < |Pushed(s1).scopes|
        ensures Pushed(s1).scopes[i].Keys <= s2.scopes[i].Keys
      {
      }
    }
    MethodsBalanced(s2, methods);
    var s3 := MethodsResolved(s2, methods).value;
    BalancedTrans(Pushed(s1), s2, s3);
    PushPop(s1, s3);
  }

  /** Balance does not look at which class the walk is in. */
  lemma ClassSwapBalanced(a: RState, b: RState, c: ClassType)
    requires Balanced(a, b)
    ensures Balanced(a.(currentClass := c), b.(currentClass := c))
  {
  }

  /** A walk balanced from s1 is also balanced from s1 with its innermost scope emptied. */
  lemma ReplaceTopBalanced(s1: RState, s4: RState)
    requires Balanced(s1, s4) && |s1.scopes| > 0
    ensures Balanced(Pushed(s1.(scopes := s1.scopes[..|s1.scopes| - 1])), s4)
  {
    var base := s1.(scopes := s1.scopes[..|s1.scopes| - 1]);
    forall i | 0 <= i < |Pushed(base).scopes|
      ensures Pushed(base).scopes[i].Keys <= s4.scopes[i].Keys
    {
      if i < |base.scopes| {
        assert Pushed(base).scopes[i] == s1.scopes[i];
      }
    }
  }

  lemma {:induction false} ClassBalanced(st: RState, name: Token, superclass: Option<VarRef>, methods: seq<FunDecl>)
    requires superclass.Some? ==> superclass.value.name.lexeme != name.lexeme
    requires forall m | m in methods :: forall t | t in m.body :: ResolvableStmt(t)
    ensures ClassResolved(st, name, superclass, methods).Ok?
    ensures Balanced(st, ClassResolved(st, name, superclass, methods).value)
    decreases methods, 2
  {
    ClassOpenedShape(st, name, superclass);
    var s0 := st.(currentClass := ClassBody);
    var d := Defined(Declared(s0, name), name).value;
    var s1 := ClassOpened(st, name, superclass).value;
    ClassBodyBalanced(s1, name, methods);
    var s4 := Popped(MethodsResolved(SetTop(Pushed(s1), "this", VarState(DEFINED, name)), methods).value).value;
    ClassSwapBalanced(s0, d, st.currentClass);
    assert s0.(currentClass := st.currentClass) == st;
    if superclass.None? {
      assert ClassResolved(st, name, superclass, methods) == Ok(s4.(currentClass := st.currentClass));
      BalancedTrans(s0, d, s4);
      ClassSwapBalanced(s0, s4, st.currentClass);
    } else {
      var base := s1.(scopes := s1.scopes[..|st.scopes|]);
      ReplaceTopBalanced(s1, s4);
      PushPop(base, s4);
      var p := Popped(s4).value;
      assert ClassResolved(st, name, superclass, methods) == Ok(p.(currentClass := st.currentClass));
      var sub := d.(currentClass := SubclassBody);
      BalancedTrans(sub, base, p);
      ClassSwapBalanced(sub, p, st.currentClass);
      assert sub.(currentClass := st.currentClass) == d.(currentClass := st.currentClass);
      BalancedTrans(st, d.(currentClass := st.currentClass), p.(currentClass := st.currentClass));
    }
  }

  /**
   * The scope-stack invariant: a resolvable program walked from the initial
   * state raises nothing and ends with an empty stack at top level.
   */
  lemma ProgramBalanced(program: seq<Stmt>)
    requires forall t | t in program :: ResolvableStmt(t)
    ensures var r := StmtsResolved(Initial, program);
      r.Ok? && r.value.scopes == [] && r.value.currentFunction == NoFunction &&
      r.value.currentClass == NoClass
  {
    StmtsBalanced(Initial, program);
  }

  // ---------------------------------------------------------------------------
  // Reported errors

  /** The errors a walk has printed, whether it finished or an exception escaped. */
  function Reported(r: Result<RState, Failure>): seq<Diagnostic> {
    if r.Ok? then r.value.errors else r.error.at.errors
  }

  /**
   * Errors are printed as they are found, so a walk only adds to them, and an
   * exception thrown later takes none of them back.
   */
  lemma {:induction false} ExprKeepsErrors(st: RState, e: Expr)
    ensures st.errors <= Reported(ExprResolved(st, e))
    decreases e, 0
  {
    match e
    case Assign(_, _, value) =>
      ExprKeepsErrors(st, value);
    case Binary(left, _, right) =>
      ExprKeepsErrors(st, left);
      if ExprResolved(st, left).Ok? {
        ExprKeepsErrors(ExprResolved(st, left).value, right);
      }
    case Call(callee, _, arguments) =>
      ExprKeepsErrors(st, callee);
      if ExprResolved(st, callee).Ok? {
        ExprsKeepErrors(ExprResolved(st, callee).value, arguments);
      }
    case Grouping(inner) =>
      ExprKeepsErrors(st, inner);
    case Literal(_) =>
    case Logical(left, _, right) =>
      ExprKeepsErrors(st, left);
      if ExprResolved(st, left).Ok? {
        ExprKeepsErrors(ExprResolved(st, left).value, right);
      }
    case Unary(_, right) =>
      ExprKeepsErrors(st, right);
    case Ternary(left, center, right, _, _) =>
      ExprKeepsErrors(st, left);
      if ExprResolved(st, left).Ok? {
        var s1 := ExprResolved(st, left).value;
        ExprKeepsErrors(s1, center);
        if ExprResolved(s1, center).Ok? {
          ExprKeepsErrors(ExprResolved(s1, center).value, right);
        }
      }
    case Variable(ref) =>
      ReadBalanced(st, ref);
    case Increment(identifier, _, _) =>
      ReadBalanced(st, identifier);
    case Fun(_, params, body) =>
      FunctionKeepsErrors(st, params, body, FunctionBody);
    case Get(target, _) =>
      ExprKeepsErrors(st, target);
    case Set(target, _, value) =>
      ExprKeepsErrors(st, value);
      if ExprResolved(st, value).Ok? {
        ExprKeepsErrors(ExprResolved(st, value).value, target);
      }
    case This(id, keyword) =>
      ThisBalanced(st, id, keyword);
    case Super(id, keyword, methodName) =>
      SuperBalanced(st, id, keyword, methodName);
  }

  lemma {:induction false} ExprsKeepErrors(st: RState, es: seq<Expr>)
    ensures st.errors <= Reported(ExprsResolved(st, es))
    decreases es, 0
  {
    if es != [] {
      ExprKeepsErrors(st, es[0]);
      if ExprResolved(st, es[0]).Ok? {
        ExprsKeepErrors(ExprResolved(st, es[0]).value, es[1..]);
      }
    }
  }

  lemma {:induction false} StmtsKeepErrors(st: RState, ss: seq<Stmt>)
    ensures st.errors <= Reported(StmtsResolved(st, ss))
    decreases ss, 0
  {
    if ss != [] {
      StmtKeepsErrors(st, ss[0]);
      if StmtResolved(st, ss[0]).Ok? {
        StmtsKeepErrors(StmtResolved(st, ss[0]).value, ss[1..]);
      }
    }
  }

  lemma {:induction false} StmtKeepsErrors(st: RState, s: Stmt)
    ensures st.errors <= Reported(StmtResolved(st, s))
    decreases s, 0
  {
    match s
    case Block(statements) =>
      StmtsKeepErrors(Pushed(st), statements);
    case Expression(e) =>
      ExprKeepsErrors(st, e);
    case Function(decl) =>
      DeclaredBalanced(st, decl.name);
      var d := Defined(Declared(st, decl.name), decl.name);
      if d.Ok? {
        FunctionKeepsErrors(d.value, decl.params, decl.body, FunctionBody);
      }
    case IfElse(branches, elseBranch) =>
      BranchesKeepErrors(st, branches);
      if BranchesResolved(st, branches).Ok? && elseBranch.Some? {
        StmtKeepsErrors(BranchesResolved(st, branches).value, elseBranch.value);
      }
    case If(condition, body) =>
      ExprKeepsErrors(st, condition);
      if ExprResolved(st, condition).Ok? {
        StmtKeepsErrors(ExprResolved(st, condition).value, body);
      }
    case Print(e) =>
      ExprKeepsErrors(st, e);
    case Return(keyword, value) =>
      ReturnKeepsErrors(st, keyword, value);
    case Var(name, initializer) =>
      DeclaredBalanced(st, name);
      if initializer.Some? {
        ExprKeepsErrors(Declared(st, name), initializer.value);
      }
    case While(condition, body) =>
      ExprKeepsErrors(st, condition);
      if ExprResolved(st, condition).Ok? {
        StmtKeepsErrors(ExprResolved(st, condition).value, body);
      }
    case LoopKeyword(_) =>
    case Class(name, superclass, methods) =>
      ClassKeepsErrors(st, name, superclass, methods);
    case Absent =>
  }

  lemma ReturnKeepsErrors(st: RState, keyword: Token, value: Option<Expr>)
    ensures st.errors <= Reported(StmtResolved(st, Return(keyword, value)))
    decreases value, 0
  {
    if value.Some? {
      var s1 := if st.currentFunction == NoFunction then ReportError(st, keyword, ReturnAtTopLevel) else st;
      var s2 := if st.currentFunction == InitializerBody then ReportError(s1, keyword, ReturnFromInitializer) else s1;
      ExprKeepsErrors(s2, value.value);
      assert StmtResolved(st, Return(keyword, value)) == ExprResolved(s2, value.value);
    }
  }

  lemma {:induction false} BranchKeepsErrors(st: RState, b: Branch)
    ensures st.errors <= Reported(BranchResolved(st, b))
    decreases b, 0
  {
    ExprKeepsErrors(st, b.condition);
    if ExprResolved(st, b.condition).Ok? {
      StmtKeepsErrors(ExprResolved(st, b.condition).value, b.body);
    }
  }

  lemma {:induction false} BranchesKeepErrors(st: RState, branches: seq<Branch>)
    ensures st.errors <= Reported(BranchesResolved(st, branches))
    decreases branches, 0
  {
    if branches != [] {
      BranchKeepsErrors(st, branches[0]);
      if BranchResolved(st, branches[0]).Ok? {
        BranchesKeepErrors(BranchResolved(st, branches[0]).value, branches[1..]);
      }
    }
  }

  lemma {:induction false} ParamsKeepErrors(st: RState, params: seq<Token>)
    ensures st.errors <= Reported(ParamsDeclared(st, params))
    decreases |params|
  {
    if params != [] {
      DeclaredBalanced(st, params[0]);
      var d := Defined(Declared(st, params[0]), params[0]);
      if d.Ok? {
        ParamsKeepErrors(d.value, params[1..]);
      }
    }
  }

  lemma {:induction false} FunctionKeepsErrors(st: RState, params: seq<Token>, body: seq<Stmt>, kind: FunctionType)
    ensures st.errors <= Reported(FunctionResolved(st, params, body, kind))
    decreases body, 1
  {
    var entered := Pushed(st.(currentFunction := kind));
    ParamsKeepErrors(entered, params);
    if ParamsDeclared(entered, params).Ok? {
      StmtsKeepErrors(ParamsDeclared(entered, params).value, body);
    }
  }

  lemma {:induction false} MethodsKeepErrors(st: RState, methods: seq<FunDecl>)
    ensures st.errors <= Reported(MethodsResolved(st, methods))
    decreases methods, 0
  {
    if methods != [] {
      var m := methods[0];
      FunctionKeepsErrors(st, m.params, m.body, MethodKind(m));
      if FunctionResolved(st, m.params, m.body, MethodKind(m)).Ok? {
        MethodsKeepErrors(FunctionResolved(st, m.params, m.body, MethodKind(m)).value, methods[1..]);
      }
    }
  }

  /** What follows a class's prologue only adds to the errors it reported. */
  lemma {:induction false} ClassBodyKeepsErrors(st: RState, name: Token, superclass: Option<VarRef>, methods: seq<FunDecl>)
    requires ClassOpened(st, name, superclass).Ok?
    ensures ClassOpened(st, name, superclass).value.errors <=
      Reported(ClassResolved(st, name, superclass, methods))
    decreases methods, 1
  {
    var s1 := ClassOpened(st, name, superclass).value;
    MethodsKeepErrors(SetTop(Pushed(s1), "this", VarState(DEFINED, name)), methods);
  }

  lemma {:induction false} ClassKeepsErrors(st: RState, name: Token, superclass: Option<VarRef>, methods: seq<FunDecl>)
    ensures st.errors <= Reported(ClassResolved(st, name, superclass, methods))
    decreases methods, 2
  {
    var s0 := st.(currentClass := ClassBody);
    DeclaredBalanced(s0, name);
    var d := Defined(Declared(s0, name), name);
    if d.Ok? {
      if superclass.Some? {
        ReadBalanced(d.value.(currentClass := SubclassBody), superclass.value);
      }
      ClassBodyKeepsErrors(st, name, superclass, methods);
    }
  }

  // ---------------------------------------------------------------------------
  // Classes

  /**
   * In a subclass the methods are resolved with "this" one hop out of the
   * method's own scope and "super" one hop further.
   */
  lemma SuperEnclosesThis(st: RState, name: Token, superclass: VarRef)
    requires superclass.name.lexeme != name.lexeme
    ensures var r := ClassOpened(st, name, Some(superclass));
      r.Ok? &&
      var inMethods := SetTop(Pushed(r.value), "this", VarState(DEFINED, name));
      Innermost(inMethods.scopes, "this") == Some(0) &&
      Innermost(inMethods.scopes, "super") == Some(1) &&
      Innermost(Pushed(inMethods).scopes, "this") == Some(1) &&
      Innermost(Pushed(inMethods).scopes, "super") == Some(2)
  {
    ClassOpenedShape(st, name, Some(superclass));
    var r := ClassOpened(st, name, Some(superclass)).value;
    var bound := VarState(DEFINED, name);
    var inMethods := SetTop(Pushed(r), "this", bound);
    assert inMethods.scopes == r.scopes + [map["this" := bound]];
    ThisOverSuper(r.scopes, bound, bound);
  }

  /** A scope binding "this" over one binding only "super", with or without an empty scope above. */
  lemma ThisOverSuper(ss: seq<Scope>, v: VarState, w: VarState)
    requires |ss| > 0 && ss[|ss| - 1] == map["super" := v]
    ensures var a := ss + [map["this" := w]];
      Innermost(a, "this") == Some(0) && Innermost(a, "super") == Some(1) &&
      Innermost(a + [map[]], "this") == Some(1) && Innermost(a + [map[]], "super") == Some(2)
  {
    var a := ss + [map["this" := w]];
    assert a[..|a| - 1] == ss;
    assert (a + [map[]])[..|a|] == a;
  }

  /**
   * A class naming itself as its superclass pops one scope more than it
   * pushed: the "super" scope popped at the end was never pushed, so the
   * enclosing scope goes instead, and at top level the pop throws.
   */
  lemma SelfInheritancePopsEnclosing(st: RState, name: Token, ref: VarRef, methods: seq<FunDecl>)
    requires ref.name.lexeme == name.lexeme
    requires forall m | m in methods :: forall t | t in m.body :: ResolvableStmt(t)
    ensures var r := ClassResolved(st, name, Some(ref), methods);
      (r.Err? <==> |st.scopes| == 0) &&
      (r.Err? ==> r.error.exception == EmptyStack) &&
      (r.Ok? ==> |r.value.scopes| == |st.scopes| - 1)
  {
    var s0 := st.(currentClass := ClassBody);
    DeclaredBalanced(s0, name);
    DefineAfterWalk(s0, name, Declared(s0, name));
    var s1 := ClassOpened(st, name, Some(ref)).value;
    var s2 := SetTop(Pushed(s1), "this", VarState(DEFINED, name));
    MethodsBalanced(s2, methods);
    PushPop(s1, MethodsResolved(s2, methods).value);
  }

  /**
   * A class naming itself as its superclass reports that error, and it stays
   * reported whether the walk then finishes or throws.
   */
  lemma SelfInheritanceReported(st: RState, name: Token, ref: VarRef, methods: seq<FunDecl>)
    requires ref.name.lexeme == name.lexeme
    ensures ErrorAt(ref.name, SelfInheritance) in Reported(ClassResolved(st, name, Some(ref), methods))
  {
    var s0 := st.(currentClass := ClassBody);
    DeclaredBalanced(s0, name);
    DefineAfterWalk(s0, name, Declared(s0, name));
    var s1 := ClassOpened(st, name, Some(ref)).value;
    assert s1.errors[|s1.errors| - 1] == ErrorAt(ref.name, SelfInheritance);
    ClassBodyKeepsErrors(st, name, Some(ref), methods);
    assert Reported(ClassResolved(st, name, Some(ref), methods))[|s1.errors| - 1] == ErrorAt(ref.name, SelfInheritance);
  }

  /** At top level the extra pop throws, after the error has been reported. */
  lemma SelfInheritanceAtTopLevel(st: RState, name: Token, ref: VarRef, methods: seq<FunDecl>)
    requires st.scopes == [] && ref.name.lexeme == name.lexeme
    requires forall m | m in methods :: forall t | t in m.body :: ResolvableStmt(t)
    ensures var r := StmtResolved(st, Class(name, Some(ref), methods));
      r.Err? && r.error.exception == EmptyStack &&
      ErrorAt(ref.name, SelfInheritance) in r.error.at.errors
  {
    SelfInheritancePopsEnclosing(st, name, ref, methods);
    SelfInheritanceReported(st, name, ref, methods);
  }

  /** Inside a block the class pops the block's scope, so the block's own endScope throws. */
  lemma SelfInheritanceInBlock(st: RState, name: Token, ref: VarRef, methods: seq<FunDecl>)
    requires st.scopes == [] && ref.name.lexeme == name.lexeme
    requires forall m | m in methods :: forall t | t in m.body :: ResolvableStmt(t)
    ensures var r := StmtResolved(st, Block([Class(name, Some(ref), methods)]));
      r.Err? && r.error.exception == EmptyStack &&
      ErrorAt(ref.name, SelfInheritance) in r.error.at.errors
  {
    var inner := Class(name, Some(ref), methods);
    SelfInheritancePopsEnclosing(Pushed(st), name, ref, methods);
    SelfInheritanceReported(Pushed(st), name, ref, methods);
    ClassStmtResolved(Pushed(st), name, Some(ref), methods);
    BlockOfOne(st, inner);
  }

  lemma ClassStmtResolved(st: RState, name: Token, superclass: Option<VarRef>, methods: seq<FunDecl>)
    ensures StmtResolved(st, Class(name, superclass, methods)) == ClassResolved(st, name, superclass, methods)
  {
  }

  /** A block of one statement: that statement in a pushed scope, then the pop. */
  lemma BlockOfOne(st: RState, s: Stmt)
    ensures StmtResolved(st, Block([s])) ==
      match StmtResolved(Pushed(st), s)
      case Err(f) => Err(f)
      case Ok(inner) => Popped(inner)
  {
    assert [s][1..] == [];
    match StmtResolved(Pushed(st), s)
    case Err(f) =>
    case Ok(inner) => assert StmtsResolved(Pushed(st), [s]) == StmtsResolved(inner, []);
  }

  /**
   * Blocks that declare a name each shadow it: a read inside resolves to the
   * innermost scope holding it, and to a global when neither does.
   */
  lemma ShadowedRead(outer: Scope, inner: Scope, ref: VarRef)
    ensures ref.name.lexeme in inner ==> Innermost([outer, inner], ref.name.lexeme) == Some(0)
    ensures ref.name.lexeme !in inner && ref.name.lexeme in outer ==>
      Innermost([outer, inner], ref.name.lexeme) == Some(1)
    ensures ref.name.lexeme !in inner && ref.name.lexeme !in outer ==>
      Innermost([outer, inner], ref.name.lexeme) == None
  {
    assert [outer, inner][..1] == [outer];
  }
}
