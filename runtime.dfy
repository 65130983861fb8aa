/**
 * jlox runtime values and environments. Every Environment object is a frame
 * in one arena, and its identity is its index there: a closure, the
 * interpreter's current environment and a frame's enclosing link are
 * indices. A frame only links to a frame created before it, so every
 * enclosing chain ends at a frame with no enclosing one (the globals).
 */
module Runtime {
  import opened Common
  import opened Syntax

  /** A LoxFunction: the declaration's name, parameters and body, and the closure it captured. */
  datatype LoxFunction = LoxFunction(name: Token, params: seq<Token>, body: seq<Stmt>, closure: nat)

  /** A Lox value; Nil is Java's null. */
  datatype Value = Nil | Bool(b: bool) | Num(n: real) | Str(s: string) | Function(f: LoxFunction)

  /** A RuntimeError: the token it blames and its message. */
  datatype RuntimeError = RuntimeError(token: Token, message: Message)

  /**
   * The message of a RuntimeError, one constructor per message the
   * interpreter and its helpers build; MessageText gives the words.
   */
  datatype Message =
    | NoSuchVariable(name: string)
    | ReadBeforeInit
    | OperandNotNumber(operand: string)
    | DivisionByZero
    | PlusOperands
    | UnknownBinaryOperator(lexeme: string)
    | UnknownUnaryOperator(lexeme: string)
    | InvalidLogicalOperator
    | UnknownTernaryPair(leftLexeme: string, rightLexeme: string)
    | IncrementNonInteger
    | NotCallable
    | ArityMismatch(arity: nat, count: nat)
    | BareIfStatement
    | UnknownLoopInterrupt
    | UndefinedStaticMethod(lexeme: string)
    | StaticFields

  function Digit(d: nat): char
    requires d < 10
  {
    "0123456789"[d]
  }

  /** Integer.toString of a count. */
  function NatToString(n: nat): (s: string)
    ensures |s| > 0
  {
    if n < 10 then [Digit(n)] else NatToString(n / 10) + [Digit(n % 10)]
  }

  /** The text of each message, as the interpreter words it. */
  function MessageText(m: Message): string {
    match m
    case NoSuchVariable(name) => "Undefined variable '" + name + "'."
    case ReadBeforeInit => "Illegal variable access before initialization."
    case OperandNotNumber(operand) => "Operand '" + operand + "' must be a number."
    case DivisionByZero => "Cannot divide by 0."
    case PlusOperands => "Operands must be two numbers or one string and one string-castable object."
    case UnknownBinaryOperator(lexeme) => "Unrecognized binary operator '" + lexeme + "'."
    case UnknownUnaryOperator(lexeme) => "Unrecognized unary operator '" + lexeme + "'."
    case InvalidLogicalOperator => "Invalid logical operator."
    case UnknownTernaryPair(l, r) => "Unrecognized ternary operator pair '" + l + "' and '" + r + "'."
    case IncrementNonInteger => "Cannot apply increment operation to non-integer value."
    case NotCallable => "Can only call functions and classes."
    case ArityMismatch(arity, count) =>
      "Expected " + NatToString(arity) + " arguments but got " + NatToString(count) + "."
    case BareIfStatement =>
      "Attempted to interpret bare 'if' statement.\n" +
      "This should never happen.  If  you see this error, please let the language maintainers know."
    case UnknownLoopInterrupt => "Unimplmented loop interrupt."
    case UndefinedStaticMethod(lexeme) => "Undefined static method " + lexeme
    case StaticFields => "Static fields aren't implemented in Lox yet."
  }

  /** An entry of Environment.values: declare binds the uninitialised marker. */
  datatype Binding = Uninitialized | Bound(value: Value)

  datatype Frame = Frame(values: map<string, Binding>, enclosing: Option<nat>)

  /** LoxFunction(Stmt.Function, closure). */
  function Declared(decl: FunDecl, closure: nat): (f: LoxFunction)
    ensures f.name == decl.name && f.params == decl.params && f.body == decl.body
    ensures f.closure == closure
  {
    LoxFunction(decl.name, decl.params, decl.body, closure)
  }

  /** LoxFunction(Expr.Fun, closure): a fresh IDENTIFIER token named "anonymous" on the keyword's line. */
  function Anonymous(keyword: Token, params: seq<Token>, body: seq<Stmt>, closure: nat): (f: LoxFunction)
    ensures f.name.kind == IDENTIFIER && f.name.lexeme == "anonymous" && f.name.line == keyword.line
    ensures f.params == params && f.body == body && f.closure == closure
  {
    LoxFunction(Token(IDENTIFIER, "anonymous", NilLit, keyword.line), params, body, closure)
  }

  /** arity(): the number of declared parameters. */
  function Arity(f: LoxFunction): (n: nat)
    ensures n == |f.params|
  {
    |f.params|
  }

  // ---------------------------------------------------------------------------
  // The arena

  /** Every enclosing link points to an earlier frame. */
  predicate Linked(frames: seq<Frame>) {
    forall i :: 0 <= i < |frames| ==>
      (frames[i].enclosing.Some? ==> frames[i].enclosing.value < i)
  }

  /** The frames get and assign visit from env: env, its enclosing frame, and so on. */
  function Chain(frames: seq<Frame>, env: nat): (c: seq<nat>)
    requires Linked(frames) && env < |frames|
    ensures |c| > 0 && c[0] == env
    ensures forall k :: 0 <= k < |c| ==> c[k] <= env
    decreases env
  {
    match frames[env].enclosing
    case None => [env]
    case Some(p) => [env] + Chain(frames, p)
  }

  /** The frame on the chain from env whose values hold name and that get and assign stop at. */
  function Holder(frames: seq<Frame>, env: nat, name: string): (h: Option<nat>)
    requires Linked(frames) && env < |frames|
    ensures h.Some? ==> h.value <= env && name in frames[h.value].values
    decreases env
  {
    if name in frames[env].values then Some(env)
    else
      match frames[env].enclosing
      case None => None
      case Some(p) => Holder(frames, p, name)
  }

  function UndefinedVariable(name: Token): RuntimeError {
    RuntimeError(name, NoSuchVariable(name.lexeme))
  }

  /** get(name). */
  function Lookup(frames: seq<Frame>, env: nat, name: Token): (r: Result<Value, RuntimeError>)
    requires Linked(frames) && env < |frames|
  {
    match Holder(frames, env, name.lexeme)
    case None => Err(UndefinedVariable(name))
    case Some(h) =>
      match frames[h].values[name.lexeme]
      case Uninitialized => Err(RuntimeError(name, ReadBeforeInit))
      case Bound(v) => Ok(v)
  }

  /** assign(name, value): the frames after it, or the error it throws. */
  function AssignIn(frames: seq<Frame>, env: nat, name: Token, value: Value): (r: Result<seq<Frame>, RuntimeError>)
    requires Linked(frames) && env < |frames|
  {
    match Holder(frames, env, name.lexeme)
    case None => Err(UndefinedVariable(name))
    case Some(h) => Ok(frames[h := frames[h].(values := frames[h].values[name.lexeme := Bound(value)])])
  }

  /** define(name, value): values.put in frame env. */
  function DefineIn(frames: seq<Frame>, env: nat, name: string, value: Value): (r: seq<Frame>)
    requires env < |frames|
  {
    frames[env := frames[env].(values := frames[env].values[name := Bound(value)])]
  }

  /** declare(name): the uninitialised marker in frame env. */
  function DeclareIn(frames: seq<Frame>, env: nat, name: string): (r: seq<Frame>)
    requires env < |frames|
  {
    frames[env := frames[env].(values := frames[env].values[name := Uninitialized])]
  }

  /** new Environment(enclosing): an empty frame at the end of the arena. */
  function Allocate(frames: seq<Frame>, enclosing: nat): (r: seq<Frame>)
    requires enclosing < |frames|
  {
    frames + [Frame(map[], Some(enclosing))]
  }

  /** Frames that differ only in their values keep the arena's links. */
  predicate SameLinks(a: seq<Frame>, b: seq<Frame>) {
    |a| <= |b| && forall i :: 0 <= i < |a| ==> b[i].enclosing == a[i].enclosing
  }

  // ---------------------------------------------------------------------------
  // Environment properties

  lemma {:induction false} ChainStaysLinked(a: seq<Frame>, b: seq<Frame>, env: nat)
    requires Linked(a) && Linked(b) && SameLinks(a, b) && env < |a|
    ensures Chain(b, env) == Chain(a, env)
    decreases env
  {
    if a[env].enclosing.Some? {
      ChainStaysLinked(a, b, a[env].enclosing.value);
    }
  }

  /**
   * get and assign stop at the nearest frame on the chain that holds the name:
   * the holder is the first chain entry holding it, and there is none exactly
   * when no chain entry holds it.
   */
  lemma {:induction false} HolderIsNearest(frames: seq<Frame>, env: nat, name: string)
    requires Linked(frames) && env < |frames|
    ensures Holder(frames, env, name).None? <==> NoneHolds(frames, Chain(frames, env), name, |Chain(frames, env)|)
    ensures Holder(frames, env, name).Some? ==>
      exists j :: 0 <= j < |Chain(frames, env)| && Chain(frames, env)[j] == Holder(frames, env, name).value &&
        NoneHolds(frames, Chain(frames, env), name, j)
    decreases env
  {
    var c := Chain(frames, env);
    if name in frames[env].values {
      assert c[0] == env;
      assert !NoneHolds(frames, c, name, |c|);
      assert NoneHolds(frames, c, name, 0);
    } else if frames[env].enclosing.Some? {
      var p := frames[env].enclosing.value;
      HolderIsNearest(frames, p, name);
      var rest := Chain(frames, p);
      assert c == [env] + rest;
      if Holder(frames, p, name).Some? {
        var j :| 0 <= j < |rest| && rest[j] == Holder(frames, p, name).value && NoneHolds(frames, rest, name, j);
        assert c[j + 1] == rest[j];
        assert !NoneHolds(frames, c, name, |c|) by {
          assert name in frames[c[j + 1]].values;
        }
        forall k | 0 <= k < j + 1
          ensures name !in frames[c[k]].values
        {
          if k > 0 {
            assert c[k] == rest[k - 1];
          }
        }
      } else {
        forall k | 0 <= k < |c|
          ensures name !in frames[c[k]].values
        {
          if k > 0 {
            assert c[k] == rest[k - 1];
          }
        }
      }
    } else {
      assert c == [env];
    }
  }

  /** No frame among the first n of chain c holds name. */
  predicate NoneHolds(frames: seq<Frame>, c: seq<nat>, name: string, n: nat)
    requires n <= |c| && forall k :: 0 <= k < |c| ==> c[k] < |frames|
  {
    forall k :: 0 <= k < n ==> name !in frames[c[k]].values
  }

  /** get returns the value of the nearest frame on the chain holding the name. */
  lemma NearestValue(frames: seq<Frame>, env: nat, name: Token, j: nat)
    requires Linked(frames) && env < |frames|
    requires j < |Chain(frames, env)| && name.lexeme in frames[Chain(frames, env)[j]].values
    requires NoneHolds(frames, Chain(frames, env), name.lexeme, j)
    ensures var v := frames[Chain(frames, env)[j]].values[name.lexeme];
      Lookup(frames, env, name) ==
        if v.Uninitialized? then Err(RuntimeError(name, ReadBeforeInit))
        else Ok(v.value)
  {
    HolderIsNearest(frames, env, name.lexeme);
    var c := Chain(frames, env);
    var h := Holder(frames, env, name.lexeme);
    var i :| 0 <= i < |c| && c[i] == h.value && NoneHolds(frames, c, name.lexeme, i);
    assert i == j;
  }

  /** A name held by no frame on the chain is undefined for both get and assign. */
  lemma Undefined(frames: seq<Frame>, env: nat, name: Token, value: Value)
    requires Linked(frames) && env < |frames|
    requires NoneHolds(frames, Chain(frames, env), name.lexeme, |Chain(frames, env)|)
    ensures Lookup(frames, env, name) == Err(RuntimeError(name, NoSuchVariable(name.lexeme)))
    ensures AssignIn(frames, env, name, value) == Err(RuntimeError(name, NoSuchVariable(name.lexeme)))
  {
    HolderIsNearest(frames, env, name.lexeme);
  }

  /** define writes this frame only: a following get finds the value, and every other frame is unchanged. */
  lemma DefineThenGet(frames: seq<Frame>, env: nat, name: Token, value: Value)
    requires Linked(frames) && env < |frames|
    ensures var r := DefineIn(frames, env, name.lexeme, value);
      Linked(r) && SameLinks(frames, r) && |r| == |frames| &&
      Lookup(r, env, name) == Ok(value) &&
      forall i :: 0 <= i < |frames| && i != env ==> r[i] == frames[i]
  {
  }

  /** declare binds the marker, so a following get fails until the name is assigned. */
  lemma DeclareThenGet(frames: seq<Frame>, env: nat, name: Token)
    requires Linked(frames) && env < |frames|
    ensures var r := DeclareIn(frames, env, name.lexeme);
      Linked(r) && SameLinks(frames, r) &&
      Lookup(r, env, name) == Err(RuntimeError(name, ReadBeforeInit))
  {
  }

  /**
   * assign never creates a binding: it succeeds exactly when get would find a
   * frame, updates only that frame's entry, and a following get returns the
   * assigned value, even where the name was only declared.
   */
  lemma AssignThenGet(frames: seq<Frame>, env: nat, name: Token, value: Value)
    requires Linked(frames) && env < |frames|
    ensures var r := AssignIn(frames, env, name, value);
      (r.Ok? <==> Holder(frames, env, name.lexeme).Some?) &&
      (r.Ok? ==>
        var h := Holder(frames, env, name.lexeme).value;
        Linked(r.value) && SameLinks(frames, r.value) && |r.value| == |frames| &&
        Lookup(r.value, env, name) == Ok(value) &&
        (forall i :: 0 <= i < |frames| ==> r.value[i].values.Keys == frames[i].values.Keys) &&
        (forall i :: 0 <= i < |frames| && i != h ==> r.value[i] == frames[i]))
  {
    var r := AssignIn(frames, env, name, value);
    if r.Ok? {
      var h := Holder(frames, env, name.lexeme).value;
      HolderUnchanged(frames, r.value, env, name.lexeme, h);
    }
  }

  /** Rewriting an entry of the holder leaves the holder where it was. */
  lemma {:induction false} HolderUnchanged(a: seq<Frame>, b: seq<Frame>, env: nat, name: string, h: nat)
    requires Linked(a) && env < |a| && Holder(a, env, name) == Some(h)
    requires |b| == |a| && SameLinks(a, b) && Linked(b)
    requires forall i :: 0 <= i < |a| ==> b[i].values.Keys == a[i].values.Keys
    ensures Holder(b, env, name) == Some(h)
    decreases env
  {
    if name !in a[env].values {
      HolderUnchanged(a, b, a[env].enclosing.value, name, h);
    }
  }

  // ---------------------------------------------------------------------------
  // The Environment objects

  class Environments {
    var frames: seq<Frame>

    ghost predicate Valid()
      reads this
    {
      Linked(frames)
    }

    /** The globals environment, frame 0. */
    constructor()
      ensures Valid() && frames == [Frame(map[], None)]
    {
      frames := [Frame(map[], None)];
    }

    /** new Environment(enclosing). */
    method NewEnvironment(enclosing: nat) returns (env: nat)
      requires Valid() && enclosing < |frames|
      modifies this
      ensures Valid() && frames == Allocate(old(frames), enclosing) && env == |old(frames)|
    {
      env := |frames|;
      frames := frames + [Frame(map[], Some(enclosing))];
    }

    method Define(env: nat, name: string, value: Value)
      requires Valid() && env < |frames|
      modifies this
      ensures Valid() && frames == DefineIn(old(frames), env, name, value)
    {
      frames := frames[env := frames[env].(values := frames[env].values[name := Bound(value)])];
    }

    method Declare(env: nat, name: string)
      requires Valid() && env < |frames|
      modifies this
      ensures Valid() && frames == DeclareIn(old(frames), env, name)
    {
      frames := frames[env := frames[env].(values := frames[env].values[name := Uninitialized])];
    }

    /** get(name): walk the enclosing links until a frame holds the name. */
    method Get(env: nat, name: Token) returns (r: Result<Value, RuntimeError>)
      requires Valid() && env < |frames|
      ensures r == Lookup(frames, env, name)
    {
      var e: nat := env;
      while name.lexeme !in frames[e].values && frames[e].enclosing.Some?
        invariant e <= env
        invariant Holder(frames, e, name.lexeme) == Holder(frames, env, name.lexeme)
        decreases e
      {
        e := frames[e].enclosing.value;
      }
      if name.lexeme !in frames[e].values {
        return Err(UndefinedVariable(name));
      }
      match frames[e].values[name.lexeme]
      case Uninitialized =>
        r := Err(RuntimeError(name, ReadBeforeInit));
      case Bound(v) =>
        r := Ok(v);
    }

    /** assign(name, value): walk the enclosing links, then overwrite in the frame found. */
    method Assign(env: nat, name: Token, value: Value) returns (error: Option<RuntimeError>)
      requires Valid() && env < |frames|
      modifies this
      ensures Valid()
      ensures var r := AssignIn(old(frames), env, name, value);
        if r.Ok? then error.None? && frames == r.value else error == Some(r.error) && frames == old(frames)
    {
      var e: nat := env;
      while name.lexeme !in frames[e].values && frames[e].enclosing.Some?
        invariant e <= env
        invariant Holder(frames, e, name.lexeme) == Holder(frames, env, name.lexeme)
        decreases e
      {
        e := frames[e].enclosing.value;
      }
      if name.lexeme !in frames[e].values {
        return Some(UndefinedVariable(name));
      }
      frames := frames[e := frames[e].(values := frames[e].values[name.lexeme := Bound(value)])];
      error := None;
    }
  }
}
