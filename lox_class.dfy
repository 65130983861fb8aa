/**
 * LoxClass: a class's name, its instance-method table and its static-method
 * table, which set can extend. LoxInstance and LoxFunction.bind are not part
 * of this model: an instance is a fresh object that knows its class, and the
 * initializer is called with the closure it was declared in.
 */
module Classes {
  import opened Common
  import opened Syntax
  import opened Runtime
  import opened Evaluation
  import Interpreter

  /** new LoxInstance(klass). */
  class LoxInstance {
    const klass: LoxClass

    constructor(klass: LoxClass)
      ensures this.klass == klass
    {
      this.klass := klass;
    }
  }

  class LoxClass {
    const name: string
    const instanceMethods: map<string, LoxFunction>
    var staticMethods: map<string, LoxFunction>

    constructor(name: string, instanceMethods: map<string, LoxFunction>, staticMethods: map<string, LoxFunction>)
      ensures this.name == name && this.instanceMethods == instanceMethods && this.staticMethods == staticMethods
    {
      this.name := name;
      this.instanceMethods := instanceMethods;
      this.staticMethods := staticMethods;
    }

    /** findMethod: the class's own instance method of that name; there is no superclass walk. */
    function FindMethod(methodName: string): (m: Option<LoxFunction>)
      ensures m.Some? <==> methodName in instanceMethods
      ensures m.Some? ==> m.value == instanceMethods[methodName]
    {
      if methodName in instanceMethods then Some(instanceMethods[methodName]) else None
    }

    /** arity: the initializer's parameter count, or 0 without one. */
    function Arity(): (n: nat)
      ensures FindMethod("init").Some? ==> n == |FindMethod("init").value.params|
      ensures FindMethod("init").None? ==> n == 0
    {
      match FindMethod("init")
      case None => 0
      case Some(initializer) => Runtime.Arity(initializer)
    }

    /** get: the static method of that name, or "Undefined static method". */
    function Get(member: Token): (r: Result<LoxFunction, RuntimeError>)
      reads this
      ensures r.Ok? <==> member.lexeme in staticMethods
      ensures r.Ok? ==> r.value == staticMethods[member.lexeme]
      ensures r.Err? ==> r.error == RuntimeError(member, UndefinedStaticMethod(member.lexeme))
    {
      if member.lexeme in staticMethods then Ok(staticMethods[member.lexeme])
      else Err(RuntimeError(member, UndefinedStaticMethod(member.lexeme)))
    }

    /**
     * set: a function is stored in the static table, where get then finds it;
     * any other value is refused and the table stays as it was.
     */
    method Set(member: Token, value: Value) returns (error: Option<RuntimeError>)
      modifies this
      ensures value.Function? ==>
        error.None? && staticMethods == old(staticMethods)[member.lexeme := value.f] && Get(member) == Ok(value.f)
      ensures !value.Function? ==>
        error == Some(RuntimeError(member, StaticFields)) && staticMethods == old(staticMethods)
    {
      if value.Function? {
        staticMethods := staticMethods[member.lexeme := value.f];
        error := None;
      } else {
        error := Some(RuntimeError(member, StaticFields));
      }
    }

    /**
     * call: a fresh instance; when there is an initializer it is called with
     * the arguments and its value dropped. A signal out of the initializer
     * (a RuntimeError, say) is what Java throws instead of returning.
     */
    method Call(interpreter: Interpreter.Interpreter, fuel: nat, arguments: seq<Value>)
      returns (instance: LoxInstance, stopped: Option<Signal>)
      requires interpreter.Valid() && |arguments| == Arity()
      requires FindMethod("init").Some? ==> FindMethod("init").value.closure < |interpreter.heap.frames|
      requires forall k :: 0 <= k < |arguments| ==> ValueLive(arguments[k], |interpreter.heap.frames|)
      modifies interpreter, interpreter.heap
      ensures fresh(instance) && instance.klass == this
      ensures interpreter.Valid() && interpreter.environment == old(interpreter.environment)
      ensures FindMethod("init").None? ==> stopped.None? && interpreter.heap.frames == old(interpreter.heap.frames)
      ensures FindMethod("init").Some? ==>
        var r := CallFunction(fuel, interpreter.text, old(interpreter.heap.frames), FindMethod("init").value, arguments);
        interpreter.heap.frames == r.frames &&
        stopped == (if r.completion.Abrupt? then Some(r.completion.signal) else None)
    {
      instance := new LoxInstance(this);
      stopped := None;
      var initializer := FindMethod("init");
      if initializer.Some? {
        var c := interpreter.Call(fuel, initializer.value, arguments);
        if c.Abrupt? {
          stopped := Some(c.signal);
        }
      }
    }
  }
}
