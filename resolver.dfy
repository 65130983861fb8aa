/**
 * The jlox resolver: a static pass over a stack of scopes. Each name in a
 * scope moves through DECLARED, DEFINED and USED; each variable reference
 * that a scope holds gets its hop count recorded in the distance table,
 * keyed by the node's identity. The functions below give the meaning of each
 * visit on a resolver state; Java exceptions from the scope stack (an
 * EmptyStackException from pop, a NullPointerException from a missing entry
 * or a null statement) are Failure outcomes, which keep the state at the
 * throw. The class Resolver at the end is the imperative pass, proved to
 * agree with these functions.
 */
module Resolver {
  import opened Common
  import opened Syntax

  datatype VarLifecycle = DECLARED | DEFINED | USED

  /** A scope entry: its lifecycle status and the token that declared it. */
  datatype VarState = VarState(status: VarLifecycle, declaration: Token)

  type Scope = map<string, VarState>

  datatype FunctionType = NoFunction | FunctionBody | InitializerBody | MethodBody

  datatype ClassType = NoClass | ClassBody | SubclassBody

  datatype Exception = EmptyStack | NullPointer

  /**
   * An exception escaping the walk, with the resolver's state where it was
   * thrown: the errors and warnings reported before it were already printed.
   */
  datatype Failure = Failure(exception: Exception, at: RState)

  /**
   * The resolver's fields (the scope stack, innermost last, and the current
   * function and class kinds), the distance table it fills in, and what it
   * reported. Warnings come from iterating a HashMap, whose order is not
   * specified, so they are a set.
   */
  datatype RState = RState(
    scopes: seq<Scope>,
    currentFunction: FunctionType,
    currentClass: ClassType,
    locals: map<nat, nat>,
    errors: seq<Diagnostic>,
    warnings: set<Diagnostic>)

  // The messages the resolver reports, word for word.
  const ThisOutsideClass := "Can't use 'this' outside of a class."
  const SuperOutsideClass := "Can't use 'super' outside of a class."
  const SuperWithoutSuperclass := "Can't use 'super' in a class with no superclass."
  const ReturnAtTopLevel := "Can't return from top-level code."
  const ReturnFromInitializer := "Can't return a value from an initializer."
  const SelfInheritance := "A class can't inherit from itself."
  const ReadInOwnInitializer := "Cannot read local variable in its own initializer."
  const UnusedVariable := "Variable unused."

  const Initial: RState := RState([], NoFunction, NoClass, map[], [], {})

  function ReportError(st: RState, t: Token, message: string): (r: RState)
    ensures r == st.(errors := st.errors + [ErrorAt(t, message)])
  {
    st.(errors := st.errors + [ErrorAt(t, message)])
  }

  // ---------------------------------------------------------------------------
  // The scope stack

  /**
   * The number of scopes between the innermost one and the innermost scope
   * holding name, or None when no scope holds it (a global).
   */
  function Innermost(scopes: seq<Scope>, name: string): (d: Option<nat>)
    ensures d.Some? <==> exists i :: 0 <= i < |scopes| && name in scopes[i]
    ensures d.Some? ==>
      d.value < |scopes| && name in scopes[|scopes| - 1 - d.value] &&
      forall j :: |scopes| - 1 - d.value < j < |scopes| ==> name !in scopes[j]
  {
    if |scopes| == 0 then None
    else if name in scopes[|scopes| - 1] then Some(0)
    else
      match Innermost(scopes[..|scopes| - 1], name)
      case None => None
      case Some(d) => Some(d + 1)
  }

  /** resolveLocal: record the hop count for the node, or nothing for a global. */
  function WithLocal(st: RState, id: nat, name: Token): (r: RState)
    ensures r.scopes == st.scopes && r.errors == st.errors && r.warnings == st.warnings
    ensures r.currentFunction == st.currentFunction && r.currentClass == st.currentClass
    ensures Innermost(st.scopes, name.lexeme).None? ==> r.locals == st.locals
    ensures Innermost(st.scopes, name.lexeme).Some? ==>
      r.locals == st.locals[id := Innermost(st.scopes, name.lexeme).value]
  {
    match Innermost(st.scopes, name.lexeme)
    case None => st
    case Some(d) => st.(locals := st.locals[id := d])
  }

  function Pushed(st: RState): (r: RState)
    ensures r.scopes == st.scopes + [map[]]
  {
    st.(scopes := st.scopes + [map[]])
  }

  /** isClassKeyword: the two names checkVarUsage never warns about. */
  predicate IsClassKeyword(name: string) {
    name == "this" || name == "super"
  }

  /** The warnings checkVarUsage gives for the given entries of a popped scope. */
  function UnusedAmong(scope: Scope, keys: set<string>): set<Diagnostic>
    requires keys <= scope.Keys
  {
    set k | k in keys && scope[k].status != USED && !IsClassKeyword(k)
      :: WarningAt(scope[k].declaration, UnusedVariable)
  }

  /** The warnings checkVarUsage gives for a whole popped scope. */
  function UnusedWarnings(scope: Scope): set<Diagnostic> {
    UnusedAmong(scope, scope.Keys)
  }

  /** endScope: pop, then warn about unused entries; popping an empty stack throws. */
  function Popped(st: RState): (r: Result<RState, Failure>)
    ensures r.Err? <==> |st.scopes| == 0
    ensures r.Err? ==> r.error == Failure(EmptyStack, st)
    ensures r.Ok? ==>
      r.value == st.(scopes := st.scopes[..|st.scopes| - 1],
                     warnings := st.warnings + UnusedWarnings(st.scopes[|st.scopes| - 1]))
  {
    if |st.scopes| == 0 then Err(Failure(EmptyStack, st))
    else Ok(st.(scopes := st.scopes[..|st.scopes| - 1],
                warnings := st.warnings + UnusedWarnings(st.scopes[|st.scopes| - 1])))
  }

  function SetTop(st: RState, key: string, v: VarState): RState
    requires |st.scopes| > 0
  {
    var top := st.scopes[|st.scopes| - 1];
    st.(scopes := st.scopes[|st.scopes| - 1 := top[key := v]])
  }

  /**
   * declare: nothing at global scope; otherwise the name is (re)bound to a
   * DECLARED entry in the innermost scope, with an error if it was already there.
   */
  function Declared(st: RState, name: Token): (r: RState)
    ensures |st.scopes| == 0 ==> r == st
    ensures |st.scopes| > 0 ==>
      var top := st.scopes[|st.scopes| - 1];
      r.scopes == st.scopes[|st.scopes| - 1 := top[name.lexeme := VarState(DECLARED, name)]] &&
      r.errors == st.errors +
        (if name.lexeme in top
         then [ErrorAt(name, "Cannot re-declare variable '" + name.lexeme + "' in this scope.")]
         else []) &&
      r.locals == st.locals && r.warnings == st.warnings &&
      r.currentFunction == st.currentFunction && r.currentClass == st.currentClass
  {
    if |st.scopes| == 0 then st
    else
      var top := st.scopes[|st.scopes| - 1];
      var reported :=
        if name.lexeme in top
        then ReportError(st, name, "Cannot re-declare variable '" + name.lexeme + "' in this scope.")
        else st;
      SetTop(reported, name.lexeme, VarState(DECLARED, name))
  }

  /**
   * define: nothing at global scope; otherwise the innermost entry becomes
   * DEFINED. A name missing from the innermost scope dereferences null.
   */
  function Defined(st: RState, name: Token): (r: Result<RState, Failure>)
    ensures |st.scopes| == 0 ==> r == Ok(st)
    ensures |st.scopes| > 0 ==>
      var top := st.scopes[|st.scopes| - 1];
      (r.Err? <==> name.lexeme !in top) &&
      (r.Err? ==> r.error == Failure(NullPointer, st)) &&
      (r.Ok? ==> r.value == st.(scopes := st.scopes[|st.scopes| - 1 :=
                                  top[name.lexeme := top[name.lexeme].(status := DEFINED)]]))
  {
    if |st.scopes| == 0 then Ok(st)
    else
      var top := st.scopes[|st.scopes| - 1];
      if name.lexeme !in top then Err(Failure(NullPointer, st))
      else Ok(SetTop(st, name.lexeme, top[name.lexeme].(status := DEFINED)))
  }

  /**
   * visitVariableExpr: a name found in the innermost scope is marked USED,
   * with an error first if it was only DECLARED; then resolveLocal.
   */
  function VariableRead(st: RState, ref: VarRef): RState {
    var marked :=
      if |st.scopes| > 0 && ref.name.lexeme in st.scopes[|st.scopes| - 1] then
        var entry := st.scopes[|st.scopes| - 1][ref.name.lexeme];
        var reported :=
          if entry.status == DECLARED
          then ReportError(st, ref.name, ReadInOwnInitializer)
          else st;
        SetTop(reported, ref.name.lexeme, entry.(status := USED))
      else st;
    WithLocal(marked, ref.id, ref.name)
  }

  // ---------------------------------------------------------------------------
  // Visiting the tree

  function ExprResolved(st: RState, e: Expr): Result<RState, Failure>
    decreases e, 0
  {
    match e
    case Assign(id, name, value) =>
      (match ExprResolved(st, value)
       case Err(f) => Err(f)
       case Ok(s) => Ok(WithLocal(s, id, name)))
    case Binary(left, _, right) =>
      (match ExprResolved(st, left)
       case Err(f) => Err(f)
       case Ok(s) => ExprResolved(s, right))
    case Call(callee, _, arguments) =>
      (match ExprResolved(st, callee)
       case Err(f) => Err(f)
       case Ok(s) => ExprsResolved(s, arguments))
    case Grouping(inner) => ExprResolved(st, inner)
    case Literal(_) => Ok(st)
    case Logical(left, _, right) =>
      (match ExprResolved(st, left)
       case Err(f) => Err(f)
       case Ok(s) => ExprResolved(s, right))
    case Unary(_, right) => ExprResolved(st, right)
    case Ternary(left, center, right, _, _) =>
      (match ExprResolved(st, left)
       case Err(f) => Err(f)
       case Ok(s) =>
         match ExprResolved(s, center)
         case Err(f) => Err(f)
         case Ok(s') => ExprResolved(s', right))
    case Variable(ref) => Ok(VariableRead(st, ref))
    case Increment(identifier, _, _) => Ok(VariableRead(st, identifier))
    case Fun(_, params, body) => FunctionResolved(st, params, body, FunctionBody)
    case Get(target, _) => ExprResolved(st, target)
    case Set(target, _, value) =>
      (match ExprResolved(st, value)
       case Err(f) => Err(f)
       case Ok(s) => ExprResolved(s, target))
    case This(id, keyword) =>
      var reported :=
        if st.currentClass == NoClass then ReportError(st, keyword, ThisOutsideClass)
        else st;
      Ok(WithLocal(reported, id, keyword))
    case Super(id, keyword, _) =>
      var reported :=
        if st.currentClass == NoClass then ReportError(st, keyword, SuperOutsideClass)
        else if st.currentClass != SubclassBody then
          ReportError(st, keyword, SuperWithoutSuperclass)
        else st;
      Ok(WithLocal(reported, id, keyword))
  }

  function ExprsResolved(st: RState, es: seq<Expr>): Result<RState, Failure>
    decreases es, 0
  {
    if es == [] then Ok(st)
    else
      match ExprResolved(st, es[0])
      case Err(f) => Err(f)
      case Ok(s) => ExprsResolved(s, es[1..])
  }

  /** resolve(List<Stmt>): each statement in order; a null one throws. */
  function StmtsResolved(st: RState, ss: seq<Stmt>): Result<RState, Failure>
    decreases ss, 0
  {
    if ss == [] then Ok(st)
    else
      match StmtResolved(st, ss[0])
      case Err(f) => Err(f)
      case Ok(s) => StmtsResolved(s, ss[1..])
  }

  function StmtResolved(st: RState, s: Stmt): Result<RState, Failure>
    decreases s, 0
  {
    match s
    case Block(statements) =>
      (match StmtsResolved(Pushed(st), statements)
       case Err(f) => Err(f)
       case Ok(inner) => Popped(inner))
    case Expression(e) => ExprResolved(st, e)
    case Function(decl) =>
      (match Defined(Declared(st, decl.name), decl.name)
       case Err(f) => Err(f)
       case Ok(s1) => FunctionResolved(s1, decl.params, decl.body, FunctionBody))
    case IfElse(branches, elseBranch) =>
      (match BranchesResolved(st, branches)
       case Err(f) => Err(f)
       case Ok(s1) => if elseBranch.Some? then StmtResolved(s1, elseBranch.value) else Ok(s1))
    case If(condition, body) =>
      (match ExprResolved(st, condition)
       case Err(f) => Err(f)
       case Ok(s1) => StmtResolved(s1, body))
    case Print(e) => ExprResolved(st, e)
    case Return(keyword, value) =>
      var s1 :=
        if st.currentFunction == NoFunction
        then ReportError(st, keyword, ReturnAtTopLevel) else st;
      if value.Some? then
        var s2 :=
          if st.currentFunction == InitializerBody
          then ReportError(s1, keyword, ReturnFromInitializer) else s1;
        ExprResolved(s2, value.value)
      else Ok(s1)
    case Var(name, initializer) =>
      var s1 := Declared(st, name);
      var s2 := if initializer.Some? then ExprResolved(s1, initializer.value) else Ok(s1);
      (match s2
       case Err(f) => Err(f)
       case Ok(s3) => Defined(s3, name))
    case While(condition, body) =>
      (match ExprResolved(st, condition)
       case Err(f) => Err(f)
       case Ok(s1) => StmtResolved(s1, body))
    case LoopKeyword(_) => Ok(st)
    case Class(name, superclass, methods) => ClassResolved(st, name, superclass, methods)
    case Absent => Err(Failure(NullPointer, st))
  }

  /** One `if`/`elif` arm: its condition, then its body. */
  function BranchResolved(st: RState, b: Branch): Result<RState, Failure>
    decreases b, 0
  {
    match ExprResolved(st, b.condition)
    case Err(f) => Err(f)
    case Ok(s) => StmtResolved(s, b.body)
  }

  function BranchesResolved(st: RState, branches: seq<Branch>): Result<RState, Failure>
    decreases branches, 0
  {
    if branches == [] then Ok(st)
    else
      match BranchResolved(st, branches[0])
      case Err(f) => Err(f)
      case Ok(s) => BranchesResolved(s, branches[1..])
  }

  /** Each parameter declared and defined in the function's scope. */
  function ParamsDeclared(st: RState, params: seq<Token>): Result<RState, Failure>
    decreases |params|
  {
    if params == [] then Ok(st)
    else
      match Defined(Declared(st, params[0]), params[0])
      case Err(f) => Err(f)
      case Ok(s) => ParamsDeclared(s, params[1..])
  }

  /**
   * resolveFunction: a scope for the parameters and the body, with
   * currentFunction set for the body and restored afterwards.
   */
  function FunctionResolved(st: RState, params: seq<Token>, body: seq<Stmt>, kind: FunctionType): Result<RState, Failure>
    decreases body, 1
  {
    match ParamsDeclared(Pushed(st.(currentFunction := kind)), params)
    case Err(f) => Err(f)
    case Ok(s1) =>
      match StmtsResolved(s1, body)
      case Err(f) => Err(f)
      case Ok(s2) =>
        match Popped(s2)
        case Err(f) => Err(f)
        case Ok(s3) => Ok(s3.(currentFunction := st.currentFunction))
  }

  function MethodKind(decl: FunDecl): FunctionType {
    if decl.name.lexeme == "init" then InitializerBody else MethodBody
  }

  function MethodsResolved(st: RState, methods: seq<FunDecl>): Result<RState, Failure>
    decreases methods, 0
  {
    if methods == [] then Ok(st)
    else
      match FunctionResolved(st, methods[0].params, methods[0].body, MethodKind(methods[0]))
      case Err(f) => Err(f)
      case Ok(s) => MethodsResolved(s, methods[1..])
  }

  /**
   * visitClassStmt up to the methods: the class name bound, then for a
   * distinct superclass its resolution and a scope binding "super".
   */
  function ClassOpened(st: RState, name: Token, superclass: Option<VarRef>): Result<RState, Failure> {
    match Defined(Declared(st.(currentClass := ClassBody), name), name)
    case Err(f) => Err(f)
    case Ok(s) =>
      if superclass.None? then Ok(s)
      else if name.lexeme == superclass.value.name.lexeme then
        Ok(ReportError(s, superclass.value.name, SelfInheritance))
      else
        var s1 := VariableRead(s.(currentClass := SubclassBody), superclass.value);
        Ok(SetTop(Pushed(s1), "super", VarState(DEFINED, name)))
  }

  /**
   * visitClassStmt: the methods are resolved in a scope binding "this". The
   * "super" scope is popped whenever a superclass is named, also when it was
   * never pushed because the class names itself.
   */
  function ClassResolved(st: RState, name: Token, superclass: Option<VarRef>, methods: seq<FunDecl>): Result<RState, Failure>
    decreases methods, 1
  {
    match ClassOpened(st, name, superclass)
    case Err(f) => Err(f)
    case Ok(s1) =>
      var s2 := SetTop(Pushed(s1), "this", VarState(DEFINED, name));
      match MethodsResolved(s2, methods)
      case Err(f) => Err(f)
      case Ok(s3) =>
        match Popped(s3)
        case Err(f) => Err(f)
        case Ok(s4) =>
          var s5 := if superclass.Some? then Popped(s4) else Ok(s4);
          match s5
          case Err(f) => Err(f)
          case Ok(s6) => Ok(s6.(currentClass := st.currentClass))
  }

  // ---------------------------------------------------------------------------
  // The imperative pass

  /** Adding one entry to those already checked adds its warning, if it has one. */
  lemma UnusedAmongStep(scope: Scope, done: set<string>, k: string)
    requires done <= scope.Keys && k in scope
    ensures UnusedAmong(scope, done + {k}) ==
      UnusedAmong(scope, done) +
      (if scope[k].status != USED && !IsClassKeyword(k)
       then {WarningAt(scope[k].declaration, UnusedVariable)} else {})
  {
  }

  class Resolver {
    var scopes: seq<Scope>
    var currentFunction: FunctionType
    var currentClass: ClassType
    /** The distance table written through interpreter.resolve. */
    var locals: map<nat, nat>
    var errors: seq<Diagnostic>
    var warnings: set<Diagnostic>

    ghost function State(): RState
      reads this
    {
      RState(scopes, currentFunction, currentClass, locals, errors, warnings)
    }

    /** What a visit leaves: the exception it threw, with the state at the throw, or the new state. */
    ghost function Outcome(f: Option<Exception>): Result<RState, Failure>
      reads this
    {
      if f.Some? then Err(Failure(f.value, State())) else Ok(State())
    }

    constructor()
      ensures State() == Initial
    {
      scopes := [];
      currentFunction := NoFunction;
      currentClass := NoClass;
      locals := map[];
      errors := [];
      warnings := {};
    }

    /** Lox.error(token, message). */
    method Report(t: Token, message: string)
      modifies this`errors
      ensures State() == ReportError(old(State()), t, message)
    {
      errors := errors + [ErrorAt(t, message)];
    }

    /** resolveLocal: search the scopes from the innermost outwards. */
    method ResolveLocal(id: nat, name: Token)
      modifies this`locals
      ensures State() == WithLocal(old(State()), id, name)
    {
      var i := |scopes|;
      while i > 0
        invariant 0 <= i <= |scopes|
        invariant forall j :: i <= j < |scopes| ==> name.lexeme !in scopes[j]
        invariant locals == old(locals)
      {
        i := i - 1;
        if name.lexeme in scopes[i] {
          ghost var d := Innermost(scopes, name.lexeme);
          assert d.Some? && d.value == |scopes| - 1 - i;
          locals := locals[id := |scopes| - 1 - i];
          return;
        }
      }
    }

    method BeginScope()
      modifies this`scopes
      ensures State() == Pushed(old(State()))
    {
      scopes := scopes + [map[]];
    }

    /** checkVarUsage: one warning for each entry never read, bar this and super. */
    method CheckVarUsage(scope: Scope)
      modifies this`warnings
      ensures warnings == old(warnings) + UnusedWarnings(scope)
    {
      var pending := scope.Keys;
      while pending != {}
        invariant pending <= scope.Keys
        invariant warnings == old(warnings) + UnusedAmong(scope, scope.Keys - pending)
        decreases pending
      {
        var k :| k in pending;
        UnusedAmongStep(scope, scope.Keys - pending, k);
        if scope[k].status != USED && !IsClassKeyword(k) {
          warnings := warnings + {WarningAt(scope[k].declaration, UnusedVariable)};
        }
        assert scope.Keys - (pending - {k}) == (scope.Keys - pending) + {k};
        pending := pending - {k};
      }
    }

    /** endScope: Stack.pop throws on an empty stack. */
    method EndScope() returns (f: Option<Exception>)
      modifies this`scopes, this`warnings
      ensures Outcome(f) == Popped(old(State()))
    {
      if |scopes| == 0 {
        return Some(EmptyStack);
      }
      var scope := scopes[|scopes| - 1];
      scopes := scopes[..|scopes| - 1];
      CheckVarUsage(scope);
      f := None;
    }

    /** scopes.peek().put(key, v). */
    method PutTop(key: string, v: VarState)
      requires |scopes| > 0
      modifies this`scopes
      ensures State() == SetTop(old(State()), key, v)
    {
      scopes := scopes[|scopes| - 1 := scopes[|scopes| - 1][key := v]];
    }

    method Declare(name: Token)
      modifies this`scopes, this`errors
      ensures State() == Declared(old(State()), name)
    {
      if |scopes| == 0 {
        return;
      }
      if name.lexeme in scopes[|scopes| - 1] {
        Report(name, "Cannot re-declare variable '" + name.lexeme + "' in this scope.");
      }
      PutTop(name.lexeme, VarState(DECLARED, name));
    }

    /** define: scope.get returns null for a name never declared there. */
    method Define(name: Token) returns (f: Option<Exception>)
      modifies this`scopes
      ensures Outcome(f) == Defined(old(State()), name)
    {
      f := None;
      if |scopes| == 0 {
        return;
      }
      if name.lexeme !in scopes[|scopes| - 1] {
        return Some(NullPointer);
      }
      var state := scopes[|scopes| - 1][name.lexeme];
      PutTop(name.lexeme, state.(status := DEFINED));
    }

    /** visitVariableExpr. */
    method VisitVariable(ref: VarRef)
      modifies this`scopes, this`errors, this`locals
      ensures State() == VariableRead(old(State()), ref)
    {
      if |scopes| > 0 && ref.name.lexeme in scopes[|scopes| - 1] {
        var state := scopes[|scopes| - 1][ref.name.lexeme];
        if state.status == DECLARED {
          Report(ref.name, ReadInOwnInitializer);
        }
        PutTop(ref.name.lexeme, state.(status := USED));
      }
      ResolveLocal(ref.id, ref.name);
    }

    /** resolve(List<Stmt>). */
    method Resolve(stmts: seq<Stmt>) returns (f: Option<Exception>)
      modifies this
      decreases stmts, 0
      ensures Outcome(f) == StmtsResolved(old(State()), stmts)
    {
      var i := 0;
      while i < |stmts|
        invariant 0 <= i <= |stmts|
        invariant StmtsResolved(old(State()), stmts) == StmtsResolved(State(), stmts[i..])
      {
        ghost var before := State();
        assert stmts[i..][1..] == stmts[i + 1..];
        f := ResolveStmt(stmts[i]);
        if f.Some? {
          return;
        }
        i := i + 1;
      }
      f := None;
    }

    /** resolveFunction(params, body, type). */
    method ResolveFunction(params: seq<Token>, body: seq<Stmt>, kind: FunctionType) returns (f: Option<Exception>)
      modifies this
      decreases body, 1
      ensures Outcome(f) == FunctionResolved(old(State()), params, body, kind)
    {
      var enclosingFunction := currentFunction;
      currentFunction := kind;
      BeginScope();
      ghost var entered := State();
      var i := 0;
      while i < |params|
        invariant 0 <= i <= |params|
        invariant ParamsDeclared(entered, params) == ParamsDeclared(State(), params[i..])
        invariant currentFunction == kind
      {
        assert params[i..][1..] == params[i + 1..];
        Declare(params[i]);
        f := Define(params[i]);
        if f.Some? {
          return;
        }
        i := i + 1;
      }
      ghost var declared := State();
      f := Resolve(body);
      if f.Some? {
        return;
      }
      f := EndScope();
      if f.Some? {
        return;
      }
      currentFunction := enclosingFunction;
    }

    method ResolveStmt(s: Stmt) returns (f: Option<Exception>)
      modifies this
      decreases s, 2
      ensures Outcome(f) == StmtResolved(old(State()), s)
    {
      match s
      case Block(statements) =>
        BeginScope();
        f := Resolve(statements);
        if f.None? {
          f := EndScope();
        }
      case Expression(e) =>
        f := ResolveExpr(e);
      case Function(decl) =>
        Declare(decl.name);
        f := Define(decl.name);
        if f.None? {
          f := ResolveFunction(decl.params, decl.body, FunctionBody);
        }
      case IfElse(_, _) =>
        f := VisitIfElse(s);
      case If(condition, body) =>
        f := ResolveExpr(condition);
        if f.None? {
          f := ResolveStmt(body);
        }
      case Print(e) =>
        f := ResolveExpr(e);
      case Return(_, _) =>
        f := VisitReturn(s);
      case Var(name, initializer) =>
        Declare(name);
        f := None;
        if initializer.Some? {
          f := ResolveExpr(initializer.value);
        }
        if f.None? {
          f := Define(name);
        }
      case While(condition, body) =>
        f := ResolveExpr(condition);
        if f.None? {
          f := ResolveStmt(body);
        }
      case LoopKeyword(_) =>
        f := None;
      case Class(name, superclass, methods) =>
        f := VisitClass(s);
      case Absent =>
        f := Some(NullPointer);
    }

    /** visitIfStmt, for one arm of an if-else chain. */
    method VisitIf(b: Branch) returns (f: Option<Exception>)
      modifies this
      decreases b, 1
      ensures Outcome(f) == BranchResolved(old(State()), b)
    {
      f := ResolveExpr(b.condition);
      if f.None? {
        f := ResolveStmt(b.body);
      }
    }

    /** visitIfElseStmt: every arm, then the else branch. */
    method VisitIfElse(s: Stmt) returns (f: Option<Exception>)
      requires s.IfElse?
      modifies this
      decreases s, 1
      ensures Outcome(f) == StmtResolved(old(State()), s)
    {
      var i := 0;
      while i < |s.ifBranches|
        invariant 0 <= i <= |s.ifBranches|
        invariant BranchesResolved(old(State()), s.ifBranches) ==
                  BranchesResolved(State(), s.ifBranches[i..])
      {
        assert s.ifBranches[i..][1..] == s.ifBranches[i + 1..];
        f := VisitIf(s.ifBranches[i]);
        if f.Some? {
          return;
        }
        i := i + 1;
      }
      f := None;
      if s.elseBranch.Some? {
        f := ResolveStmt(s.elseBranch.value);
      }
    }

    /** visitReturnStmt. */
    method VisitReturn(s: Stmt) returns (f: Option<Exception>)
      requires s.Return?
      modifies this
      decreases s, 1
      ensures Outcome(f) == StmtResolved(old(State()), s)
    {
      if currentFunction == NoFunction {
        Report(s.keyword, ReturnAtTopLevel);
      }
      f := None;
      if s.value.Some? {
        if currentFunction == InitializerBody {
          Report(s.keyword, ReturnFromInitializer);
        }
        f := ResolveExpr(s.value.value);
      }
    }

    /** visitClassStmt up to the methods. */
    method ClassPrologue(name: Token, superclass: Option<VarRef>) returns (f: Option<Exception>)
      modifies this
      ensures Outcome(f) == ClassOpened(old(State()), name, superclass)
    {
      currentClass := ClassBody;
      Declare(name);
      f := Define(name);
      if f.Some? || superclass.None? {
        return;
      }
      if name.lexeme == superclass.value.name.lexeme {
        Report(superclass.value.name, SelfInheritance);
      } else {
        currentClass := SubclassBody;
        VisitVariable(superclass.value);
        BeginScope();
        PutTop("super", VarState(DEFINED, name));
      }
    }

    /** The loop of visitClassStmt over the methods, each with its function type. */
    method ResolveMethods(methods: seq<FunDecl>) returns (f: Option<Exception>)
      modifies this
      decreases methods, 0
      ensures Outcome(f) == MethodsResolved(old(State()), methods)
    {
      var i := 0;
      while i < |methods|
        invariant 0 <= i <= |methods|
        invariant MethodsResolved(old(State()), methods) == MethodsResolved(State(), methods[i..])
      {
        assert methods[i..][1..] == methods[i + 1..];
        var kind := if methods[i].name.lexeme == "init" then InitializerBody else MethodBody;
        f := ResolveFunction(methods[i].params, methods[i].body, kind);
        if f.Some? {
          return;
        }
        i := i + 1;
      }
      f := None;
    }

    /** visitClassStmt. */
    method VisitClass(s: Stmt) returns (f: Option<Exception>)
      requires s.Class?
      modifies this
      decreases s, 1
      ensures Outcome(f) == StmtResolved(old(State()), s)
    {
      var enclosingClass := currentClass;
      f := ClassPrologue(s.name, s.superclass);
      if f.Some? {
        return;
      }
      BeginScope();
      PutTop("this", VarState(DEFINED, s.name));
      f := ResolveMethods(s.methods);
      if f.Some? {
        return;
      }
      f := EndScope();
      if f.Some? {
        return;
      }
      if s.superclass.Some? {
        f := EndScope();
        if f.Some? {
          return;
        }
      }
      currentClass := enclosingClass;
    }

    method ResolveExpr(e: Expr) returns (f: Option<Exception>)
      modifies this
      decreases e, 2
      ensures Outcome(f) == ExprResolved(old(State()), e)
    {
      f := None;
      match e
      case Assign(id, name, value) =>
        f := ResolveExpr(value);
        if f.None? {
          ResolveLocal(id, name);
        }
      case Binary(left, _, right) =>
        f := ResolveExpr(left);
        if f.None? {
          f := ResolveExpr(right);
        }
      case Call(_, _, _) =>
        f := VisitCall(e);
      case Grouping(inner) =>
        f := ResolveExpr(inner);
      case Literal(_) =>
      case Logical(left, _, right) =>
        f := ResolveExpr(left);
        if f.None? {
          f := ResolveExpr(right);
        }
      case Unary(_, right) =>
        f := ResolveExpr(right);
      case Ternary(left, center, right, _, _) =>
        f := ResolveExpr(left);
        if f.None? {
          f := ResolveExpr(center);
          if f.None? {
            f := ResolveExpr(right);
          }
        }
      case Variable(ref) =>
        VisitVariable(ref);
      case Increment(identifier, _, _) =>
        VisitVariable(identifier);
      case Fun(_, params, body) =>
        f := ResolveFunction(params, body, FunctionBody);
      case Get(target, _) =>
        f := ResolveExpr(target);
      case Set(target, _, value) =>
        f := ResolveExpr(value);
        if f.None? {
          f := ResolveExpr(target);
        }
      case This(_, _) =>
        VisitThis(e);
      case Super(_, _, _) =>
        VisitSuper(e);
    }

    /** visitThisExpr: an error outside a class, then the keyword resolved as a local. */
    method VisitThis(e: Expr)
      requires e.This?
      modifies this
      ensures Outcome(None) == ExprResolved(old(State()), e)
    {
      if currentClass == NoClass {
        Report(e.keyword, ThisOutsideClass);
      }
      ResolveLocal(e.id, e.keyword);
    }

    /** visitSuperExpr: an error outside a class or in one with no superclass, then the keyword resolved. */
    method VisitSuper(e: Expr)
      requires e.Super?
      modifies this
      ensures Outcome(None) == ExprResolved(old(State()), e)
    {
      if currentClass == NoClass {
        Report(e.keyword, SuperOutsideClass);
      } else if currentClass != SubclassBody {
        Report(e.keyword, SuperWithoutSuperclass);
      }
      ResolveLocal(e.id, e.keyword);
    }

    /** visitCallExpr: the callee, then each argument. */
    method VisitCall(e: Expr) returns (f: Option<Exception>)
      requires e.Call?
      modifies this
      decreases e, 1
      ensures Outcome(f) == ExprResolved(old(State()), e)
    {
      f := ResolveExpr(e.callee);
      if f.Some? {
        return;
      }
      ghost var afterCallee := State();
      var i := 0;
      while i < |e.arguments|
        invariant 0 <= i <= |e.arguments|
        invariant ExprsResolved(afterCallee, e.arguments) == ExprsResolved(State(), e.arguments[i..])
      {
        assert e.arguments[i..][1..] == e.arguments[i + 1..];
        f := ResolveExpr(e.arguments[i]);
        if f.Some? {
          return;
        }
        i := i + 1;
      }
      f := None;
    }
  }
}
