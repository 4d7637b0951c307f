/**
 * The control-flow operators of src/lib/operators/sys.ts — `define`, `call`,
 * `get`, `exec`, `eval` and `err` — over an abstract evaluator.
 *
 * An expression is a literal (a non-operator leaf, which evaluates to itself)
 * or an operator node whose configuration has already passed schema
 * validation. Operations are synchronous: a result is a value or an error.
 * Evaluation threads a `Scope` (ambient context, constants, functions, last
 * error) and never changes it in place: `define`, `call` and `exec` build a
 * new scope for what they evaluate next.
 *
 * A function in a scope is a compiled operation, here the expression it
 * runs; it runs in the scope of the CALL, not of its definition. Because
 * `call`, `exec` and `eval` run code that is not part of the expression
 * itself, evaluation is bounded by `fuel`, spent exactly at those three points.
 */
module SysOperators {

  import opened Wrappers

  // ---------------------------------------------------------------------------
  // Values, expressions, scopes
  // ---------------------------------------------------------------------------

  /** A runtime value (`unknown` in the source), `undefined` included. */
  datatype Value =
    | Undefined
    | Null
    | Bool(b: bool)
    | Num(n: int)
    | Str(s: string)
    | Arr(items: seq<Value>)
    | Rec(fields: map<string, Value>)

  /** JavaScript truthiness: `undefined`, `null`, `false`, `0` and `""` are falsy. */
  predicate Truthy(v: Value) {
    match v
    case Undefined => false
    case Null => false
    case Bool(b) => b
    case Num(n) => n != 0
    case Str(s) => s != ""
    case _ => true
  }

  /** An expression: a literal leaf, or an operator node with its validated configuration. */
  datatype Expr =
    | Lit(v: Value)
      /** An operator registered outside this core, with its configuration. */
    | HostOp(hostName: string, hostConfig: Value)
    | DefineOp(functions: Option<map<string, Expr>>, constants: Option<Expr>, body: Expr)
    | CallOp(fn: Expr, arg: Option<Expr>)
    | GetOp(name: Expr, default: Option<Expr>)
    | ExecOp(op: Value, config: Option<Expr>, arg: Option<Expr>)
    | EvalOp(expression: Expr)
    | ErrOp

  /** `Scope`: ambient context, constants, functions, and the last error (`Undefined` when absent). */
  datatype Scope = Scope(
    context: Value,
    constants: map<string, Value>,
    functions: map<string, Expr>,
    error: Value)

  /** The errors the operators throw, and those of collaborators outside this core. */
  datatype Error =
    | ConstantsNotObject
    | FunctionNameNotString(fnName: Value)
    | FunctionNotDefined(name: string)
    | ConstantNameNotString(constName: Value)
    | ConstantNotDefined(name: string)
    | ConfigNotObject
    | Thrown(message: string)
    | OutOfFuel

  datatype Result<T> = Ok(value: T) | Fail(error: Error)

  /** The text of each error; `show` is the template interpolation `${v}` of a value. */
  function Message(e: Error, show: Value -> string): string {
    match e
    case ConstantsNotObject => "Constants must be an object"
    case FunctionNameNotString(v) => "Function name is not a string: " + show(v)
    case FunctionNotDefined(n) => "Function " + n + " is not defined"
    case ConstantNameNotString(v) => "Constant name is not a string: " + show(v)
    case ConstantNotDefined(n) => "Constant " + n + " is not defined"
    case ConfigNotObject => "Config must be an object"
    case Thrown(m) => m
    case OutOfFuel => "evaluation ran out of fuel"
  }

  /**
   * The collaborators the operators use but which are not part of this model:
   * `OPERATOR_KEY`; the operators registered by the host application; the
   * operator factory `exec` compiles its configuration with; the resolver
   * `eval` maps its result through (with the JSON traverser); `stringifyError`.
   */
  datatype Env = Env(
    operatorKey: string,
    host: (string, Value, Scope) -> Result<Value>,
    compile: map<string, Value> -> Result<Expr>,
    resolve: Value -> Result<Expr>,
    stringifyError: Value -> string)

  /** `if (x)` on an optional configuration value: absent, or a falsy literal, counts as not given. */
  predicate GivenTruthy(x: Option<Expr>) {
    x.Some? && (x.value.Lit? ==> Truthy(x.value.v))
  }

  /** `x !== undefined` on an optional configuration value. */
  predicate GivenDefined(x: Option<Expr>) {
    x.Some? && x.value != Lit(Undefined)
  }

  // ---------------------------------------------------------------------------
  // The evaluator
  // ---------------------------------------------------------------------------

  /** The number of operator nodes and leaves in an expression, not counting the functions it defines. */
  function Size(e: Expr): (n: nat)
    ensures n >= 1
  {
    match e
    case DefineOp(_, constants, body) => 1 + (if constants.Some? then Size(constants.value) else 0) + Size(body)
    case CallOp(fn, arg) => 1 + Size(fn) + (if arg.Some? then Size(arg.value) else 0)
    case GetOp(name, default) => 1 + Size(name) + (if default.Some? then Size(default.value) else 0)
    case ExecOp(_, config, arg) =>
      1 + (if config.Some? then Size(config.value) else 0) + (if arg.Some? then Size(arg.value) else 0)
    case EvalOp(expression) => 1 + Size(expression)
    case _ => 1
  }

  /** `evalInScope(e, scope)`: literals evaluate to themselves, operator nodes run their operation. */
  function Evaluate(env: Env, fuel: nat, e: Expr, scope: Scope): Result<Value>
    decreases fuel, Size(e), 1
  {
    match e
    case Lit(v) => Ok(v)
    case HostOp(name, config) => env.host(name, config, scope)
    case DefineOp(_, _, _) => RunDefine(env, fuel, e, scope)
    case CallOp(_, _) => RunCall(env, fuel, e, scope)
    case GetOp(_, _) => RunGet(env, fuel, e, scope)
    case ExecOp(_, _, _) => RunExec(env, fuel, e, scope)
    case EvalOp(_) => RunEval(env, fuel, e, scope)
    case ErrOp => Ok(Str(env.stringifyError(scope.error)))
  }

  /** Run a compiled operation found at run time; this is where fuel is spent. */
  function Invoke(env: Env, fuel: nat, op: Expr, scope: Scope): Result<Value>
    decreases fuel, 0
  {
    if fuel == 0 then Fail(OutOfFuel) else Evaluate(env, fuel - 1, op, scope)
  }

  /** The scope `define` evaluates `for` in: new functions and constants layered over the parent's. */
  function DefineScope(scope: Scope, functions: Option<map<string, Expr>>, constants: Option<map<string, Value>>): (r: Scope)
    ensures r.context == scope.context && r.error == scope.error
    ensures constants.None? ==> r.constants == scope.constants
    ensures constants.Some? ==> r.constants.Keys == scope.constants.Keys + constants.value.Keys
    ensures constants.Some? ==> forall k :: k in constants.value ==> r.constants[k] == constants.value[k]
    ensures constants.Some? ==> forall k :: k in scope.constants && k !in constants.value ==> r.constants[k] == scope.constants[k]
    ensures functions.None? ==> r.functions == scope.functions
    ensures functions.Some? ==> r.functions.Keys == scope.functions.Keys + functions.value.Keys
    ensures functions.Some? ==> forall k :: k in functions.value ==> r.functions[k] == functions.value[k]
    ensures functions.Some? ==> forall k :: k in scope.functions && k !in functions.value ==> r.functions[k] == scope.functions[k]
  {
    Scope(
      scope.context,
      if constants.Some? then scope.constants + constants.value else scope.constants,
      if functions.Some? then scope.functions + functions.value else scope.functions,
      scope.error)
  }

  /** `define`: evaluate `constants` (which must give a record), then `for` in the extended scope. */
  function RunDefine(env: Env, fuel: nat, e: Expr, scope: Scope): Result<Value>
    requires e.DefineOp?
    decreases fuel, Size(e), 0
  {
    var evaluated: Result<Option<map<string, Value>>> :=
      if GivenTruthy(e.constants) then
        match Evaluate(env, fuel, e.constants.value, scope)
        case Fail(err) => Fail(err)
        case Ok(data) => if data.Rec? then Ok(Some(data.fields)) else Fail(ConstantsNotObject)
      else Ok(None);
    match evaluated
    case Fail(err) => Fail(err)
    case Ok(constants) => Evaluate(env, fuel, e.body, DefineScope(scope, e.functions, constants))
  }

  /** `call`: evaluate `fn` to a name, look it up, and run the function, with `arg` as the new context if given. */
  function RunCall(env: Env, fuel: nat, e: Expr, scope: Scope): Result<Value>
    requires e.CallOp?
    decreases fuel, Size(e), 0
  {
    match Evaluate(env, fuel, e.fn, scope)
    case Fail(err) => Fail(err)
    case Ok(fnName) =>
      if !fnName.Str? then Fail(FunctionNameNotString(fnName))
      else if fnName.s !in scope.functions then Fail(FunctionNotDefined(fnName.s))
      else if GivenTruthy(e.arg) then
        match Evaluate(env, fuel, e.arg.value, scope)
        case Fail(err) => Fail(err)
        case Ok(context) => Invoke(env, fuel, scope.functions[fnName.s], scope.(context := context))
      else Invoke(env, fuel, scope.functions[fnName.s], scope)
  }

  /** `get`: a bound constant that is not `undefined`, else the lazily evaluated `default`, else an error. */
  function RunGet(env: Env, fuel: nat, e: Expr, scope: Scope): Result<Value>
    requires e.GetOp?
    decreases fuel, Size(e), 0
  {
    match Evaluate(env, fuel, e.name, scope)
    case Fail(err) => Fail(err)
    case Ok(constName) =>
      if !constName.Str? then Fail(ConstantNameNotString(constName))
      else if constName.s in scope.constants && scope.constants[constName.s] != Undefined then
        Ok(scope.constants[constName.s])
      else if GivenDefined(e.default) then Evaluate(env, fuel, e.default.value, scope)
      else Fail(ConstantNotDefined(constName.s))
  }

  /** The configuration `exec` compiles: the evaluated `config` record (if any) with the operator tag set to `op`. */
  function OperatorConfig(operatorKey: string, op: Value, resolved: Option<Value>): (r: Result<map<string, Value>>)
    ensures resolved.None? ==> r == Ok(map[operatorKey := op])
    ensures resolved.Some? && !resolved.value.Rec? ==> r == Fail(ConfigNotObject)
    ensures resolved.Some? && resolved.value.Rec? ==>
              && r.Ok?
              && r.value.Keys == resolved.value.fields.Keys + {operatorKey}
              && r.value[operatorKey] == op
              && forall k :: k in resolved.value.fields && k != operatorKey ==> r.value[k] == resolved.value.fields[k]
  {
    match resolved
    case None => Ok(map[operatorKey := op])
    case Some(c) => if c.Rec? then Ok(c.fields[operatorKey := op]) else Fail(ConfigNotObject)
  }

  /** `exec`: build an operator configuration, compile it, and run it with `arg` (if given) as the context. */
  function RunExec(env: Env, fuel: nat, e: Expr, scope: Scope): Result<Value>
    requires e.ExecOp?
    decreases fuel, Size(e), 0
  {
    var resolved: Result<Option<Value>> :=
      if !GivenDefined(e.config) then Ok(None)
      else
        match Evaluate(env, fuel, e.config.value, scope)
        case Fail(err) => Fail(err)
        case Ok(c) => Ok(Some(c));
    match resolved
    case Fail(err) => Fail(err)
    case Ok(config) =>
      match OperatorConfig(env.operatorKey, e.op, config)
      case Fail(err) => Fail(err)
      case Ok(opConfig) =>
        match env.compile(opConfig)
        case Fail(err) => Fail(err)
        case Ok(scopedOp) =>
          var context := if !GivenDefined(e.arg) then Ok(scope.context) else Evaluate(env, fuel, e.arg.value, scope);
          match context
          case Fail(err) => Fail(err)
          case Ok(c) => Invoke(env, fuel, scopedOp, scope.(context := c))
  }

  /** `eval`: evaluate `expression`, turn the operator nodes in the result into operations, and evaluate that. */
  function RunEval(env: Env, fuel: nat, e: Expr, scope: Scope): Result<Value>
    requires e.EvalOp?
    decreases fuel, Size(e), 0
  {
    match Evaluate(env, fuel, e.expression, scope)
    case Fail(err) => Fail(err)
    case Ok(v) =>
      match env.resolve(v)
      case Fail(err) => Fail(err)
      case Ok(opOrValue) => Invoke(env, fuel, opOrValue, scope)
  }

  // ---------------------------------------------------------------------------
  // define
  // ---------------------------------------------------------------------------

  /** `constants` that evaluates to a non-record is an error, whatever `for` is: `for` is never evaluated. */
  lemma DefineConstantsNotObject(env: Env, fuel: nat, functions: Option<map<string, Expr>>, constants: Expr, body: Expr, scope: Scope)
    requires GivenTruthy(Some(constants))
    requires Evaluate(env, fuel, constants, scope).Ok? && !Evaluate(env, fuel, constants, scope).value.Rec?
    ensures Evaluate(env, fuel, DefineOp(functions, Some(constants), body), scope) == Fail(ConstantsNotObject)
  {
  }

  /**
   * Otherwise `for` is evaluated in the parent scope extended key by key with
   * the new functions and the evaluated constants, the new binding winning on
   * a clash, with the same context and error. A falsy literal `constants` is
   * ignored. The parent scope itself is a value and stays as it was.
   */
  lemma DefineEvaluatesBodyInExtendedScope(env: Env, fuel: nat, functions: Option<map<string, Expr>>,
                                           constants: Option<Expr>, body: Expr, scope: Scope)
    requires GivenTruthy(constants) ==>
               Evaluate(env, fuel, constants.value, scope).Ok? && Evaluate(env, fuel, constants.value, scope).value.Rec?
    ensures Evaluate(env, fuel, DefineOp(functions, constants, body), scope)
         == Evaluate(env, fuel, body, DefineScope(scope, functions,
              if GivenTruthy(constants) then Some(Evaluate(env, fuel, constants.value, scope).value.fields) else None))
  {
  }

  /**
   * `define({constants: {a: 1}, for: get({const: "a"})})` evaluates to 1,
   * while `get({const: "a"})` in the parent scope still fails.
   */
  lemma DefineBindingDoesNotLeak(env: Env, fuel: nat, scope: Scope)
    requires "a" !in scope.constants
    ensures Evaluate(env, fuel, DefineOp(None, Some(Lit(Rec(map["a" := Num(1)]))), GetOp(Lit(Str("a")), None)), scope) == Ok(Num(1))
    ensures Evaluate(env, fuel, GetOp(Lit(Str("a")), None), scope) == Fail(ConstantNotDefined("a"))
  {
    var get := GetOp(Lit(Str("a")), None);
    var inner := DefineScope(scope, None, Some(map["a" := Num(1)]));
    assert inner.constants["a"] == Num(1);
    assert Evaluate(env, fuel, Lit(Str("a")), inner) == Ok(Str("a"));
    assert Evaluate(env, fuel, get, inner) == Ok(Num(1));
    assert Evaluate(env, fuel, Lit(Rec(map["a" := Num(1)])), scope) == Ok(Rec(map["a" := Num(1)]));
    assert Evaluate(env, fuel, Lit(Str("a")), scope) == Ok(Str("a"));
  }

  // ---------------------------------------------------------------------------
  // call
  // ---------------------------------------------------------------------------

  /** A function name that is not a string is an error; no function runs and `arg` is not evaluated. */
  lemma CallNameNotString(env: Env, fuel: nat, fn: Expr, arg: Option<Expr>, scope: Scope)
    requires Evaluate(env, fuel, fn, scope).Ok? && !Evaluate(env, fuel, fn, scope).value.Str?
    ensures Evaluate(env, fuel, CallOp(fn, arg), scope) == Fail(FunctionNameNotString(Evaluate(env, fuel, fn, scope).value))
  {
  }

  /** A name absent from the scope's functions is an error naming it; no function runs and `arg` is not evaluated. */
  lemma CallUndefinedFunction(env: Env, fuel: nat, fn: Expr, arg: Option<Expr>, scope: Scope, name: string)
    requires Evaluate(env, fuel, fn, scope) == Ok(Str(name))
    requires name !in scope.functions
    ensures Evaluate(env, fuel, CallOp(fn, arg), scope) == Fail(FunctionNotDefined(name))
  {
  }

  /**
   * A defined function runs in the calling scope: with a truthy `arg`, only
   * the context is replaced by the evaluated `arg`; without one, the scope
   * is passed unchanged.
   */
  lemma CallRunsFunction(env: Env, fuel: nat, fn: Expr, arg: Option<Expr>, scope: Scope, name: string)
    requires Evaluate(env, fuel, fn, scope) == Ok(Str(name))
    requires name in scope.functions
    requires GivenTruthy(arg) ==> Evaluate(env, fuel, arg.value, scope).Ok?
    ensures !GivenTruthy(arg) ==>
              Evaluate(env, fuel, CallOp(fn, arg), scope) == Invoke(env, fuel, scope.functions[name], scope)
    ensures GivenTruthy(arg) ==>
              Evaluate(env, fuel, CallOp(fn, arg), scope)
              == Invoke(env, fuel, scope.functions[name],
                        Scope(Evaluate(env, fuel, arg.value, scope).value, scope.constants, scope.functions, scope.error))
  {
  }

  /** A falsy literal `arg` (0, "", false, null, undefined) is the same as no `arg`. */
  lemma CallFalsyArgIgnored(env: Env, fuel: nat, fn: Expr, v: Value, scope: Scope)
    requires !Truthy(v)
    ensures Evaluate(env, fuel, CallOp(fn, Some(Lit(v))), scope) == Evaluate(env, fuel, CallOp(fn, None), scope)
  {
  }

  // ---------------------------------------------------------------------------
  // get
  // ---------------------------------------------------------------------------

  /** A constant name that is not a string is an error, and `default` is not evaluated. */
  lemma GetNameNotString(env: Env, fuel: nat, name: Expr, default: Option<Expr>, scope: Scope)
    requires Evaluate(env, fuel, name, scope).Ok? && !Evaluate(env, fuel, name, scope).value.Str?
    ensures Evaluate(env, fuel, GetOp(name, default), scope) == Fail(ConstantNameNotString(Evaluate(env, fuel, name, scope).value))
  {
  }

  /** A bound constant that is not `undefined` is the result, whatever `default` is, even one that fails. */
  lemma GetBoundConstant(env: Env, fuel: nat, name: Expr, default: Option<Expr>, scope: Scope, key: string)
    requires Evaluate(env, fuel, name, scope) == Ok(Str(key))
    requires key in scope.constants && scope.constants[key] != Undefined
    ensures Evaluate(env, fuel, GetOp(name, default), scope) == Ok(scope.constants[key])
  {
  }

  /** Otherwise a supplied `default` is evaluated in the same scope, and without one the constant is reported missing. */
  lemma GetMissingConstant(env: Env, fuel: nat, name: Expr, default: Option<Expr>, scope: Scope, key: string)
    requires Evaluate(env, fuel, name, scope) == Ok(Str(key))
    requires key !in scope.constants || scope.constants[key] == Undefined
    ensures GivenDefined(default) ==> Evaluate(env, fuel, GetOp(name, default), scope) == Evaluate(env, fuel, default.value, scope)
    ensures !GivenDefined(default) ==> Evaluate(env, fuel, GetOp(name, default), scope) == Fail(ConstantNotDefined(key))
  {
  }

  /**
   * A constant bound to `undefined` reads exactly as one that is not bound at
   * all (a literal `default`, which does not look at the scope, included).
   */
  lemma GetUndefinedIsUnbound(env: Env, fuel: nat, key: string, default: Option<Value>, scope: Scope)
    ensures var get := GetOp(Lit(Str(key)), if default.Some? then Some(Lit(default.value)) else None);
            (Evaluate(env, fuel, get, scope.(constants := scope.constants[key := Undefined]))
             == Evaluate(env, fuel, get, scope.(constants := scope.constants - {key})))
  {
    var get := GetOp(Lit(Str(key)), if default.Some? then Some(Lit(default.value)) else None);
    var bound := scope.(constants := scope.constants[key := Undefined]);
    var unbound := scope.(constants := scope.constants - {key});
    assert Evaluate(env, fuel, Lit(Str(key)), bound) == Ok(Str(key));
    assert Evaluate(env, fuel, Lit(Str(key)), unbound) == Ok(Str(key));
    if default.Some? {
      assert Evaluate(env, fuel, Lit(default.value), bound) == Evaluate(env, fuel, Lit(default.value), unbound);
    }
  }

  // ---------------------------------------------------------------------------
  // exec
  // ---------------------------------------------------------------------------

  /**
   * The configuration is compiled before `arg` is looked at: when compiling
   * fails, that error is the result, whatever `arg` is. Without `config` the
   * configuration compiled is `{[OPERATOR_KEY]: op}` alone.
   */
  lemma ExecCompileError(env: Env, fuel: nat, op: Value, config: Option<Expr>, arg: Option<Expr>,
                         scope: Scope, opConfig: map<string, Value>)
    requires !GivenDefined(config) ==> opConfig == map[env.operatorKey := op]
    requires GivenDefined(config) ==>
               && Evaluate(env, fuel, config.value, scope).Ok?
               && OperatorConfig(env.operatorKey, op, Some(Evaluate(env, fuel, config.value, scope).value)) == Ok(opConfig)
    requires env.compile(opConfig).Fail?
    ensures Evaluate(env, fuel, ExecOp(op, config, arg), scope) == Fail(env.compile(opConfig).error)
  {
  }

  /** A `config` that evaluates to a non-record is an error; nothing is compiled and `arg` is not evaluated. */
  lemma ExecConfigNotObject(env: Env, fuel: nat, op: Value, config: Expr, arg: Option<Expr>, scope: Scope)
    requires config != Lit(Undefined)
    requires Evaluate(env, fuel, config, scope).Ok? && !Evaluate(env, fuel, config, scope).value.Rec?
    ensures Evaluate(env, fuel, ExecOp(op, Some(config), arg), scope) == Fail(ConfigNotObject)
  {
  }

  /**
   * The compiled operation runs with the evaluated `arg` as its context when
   * `arg` is given, else with the current context; constants, functions and
   * error are those of the current scope.
   */
  lemma ExecRunsCompiledOperation(env: Env, fuel: nat, op: Value, config: Option<Expr>, arg: Option<Expr>,
                                  scope: Scope, opConfig: map<string, Value>, scopedOp: Expr)
    requires !GivenDefined(config) ==> opConfig == map[env.operatorKey := op]
    requires GivenDefined(config) ==>
               && Evaluate(env, fuel, config.value, scope).Ok?
               && OperatorConfig(env.operatorKey, op, Some(Evaluate(env, fuel, config.value, scope).value)) == Ok(opConfig)
    requires env.compile(opConfig) == Ok(scopedOp)
    requires GivenDefined(arg) ==> Evaluate(env, fuel, arg.value, scope).Ok?
    ensures !GivenDefined(arg) ==>
              Evaluate(env, fuel, ExecOp(op, config, arg), scope) == Invoke(env, fuel, scopedOp, scope)
    ensures GivenDefined(arg) ==>
              Evaluate(env, fuel, ExecOp(op, config, arg), scope)
              == Invoke(env, fuel, scopedOp,
                        Scope(Evaluate(env, fuel, arg.value, scope).value, scope.constants, scope.functions, scope.error))
  {
  }

  // ---------------------------------------------------------------------------
  // eval and err
  // ---------------------------------------------------------------------------

  /** `eval` evaluates `expression` once, resolves the result, and evaluates that in the same scope. */
  lemma EvalRunsResolvedTree(env: Env, fuel: nat, expression: Expr, scope: Scope, tree: Expr)
    requires Evaluate(env, fuel, expression, scope).Ok?
    requires env.resolve(Evaluate(env, fuel, expression, scope).value) == Ok(tree)
    ensures Evaluate(env, fuel, EvalOp(expression), scope) == Invoke(env, fuel, tree, scope)
  {
  }

  /** `err` reports the scope's error through `stringifyError`, and nothing else of the scope matters. */
  lemma ErrReportsScopeError(env: Env, fuel: nat, scope: Scope, other: Scope)
    requires other.error == scope.error
    ensures Evaluate(env, fuel, ErrOp, scope) == Ok(Str(env.stringifyError(scope.error)))
    ensures Evaluate(env, fuel, ErrOp, other) == Evaluate(env, fuel, ErrOp, scope)
  {
  }

  // ---------------------------------------------------------------------------
  // Fuel
  // ---------------------------------------------------------------------------

  /** An evaluation that did not run out of fuel gives the same result with any more fuel. */
  lemma {:induction false} EvaluateFuelMonotone(env: Env, fuel: nat, more: nat, e: Expr, scope: Scope)
    requires fuel <= more
    requires Evaluate(env, fuel, e, scope) != Fail(OutOfFuel)
    ensures Evaluate(env, more, e, scope) == Evaluate(env, fuel, e, scope)
    decreases fuel, Size(e), 0
  {
    match e
    case Lit(_) =>
    case HostOp(_, _) =>
    case ErrOp =>
    case DefineOp(functions, constants, body) =>
      if GivenTruthy(constants) {
        OptionalFuelMonotone(env, fuel, more, constants.value, scope);
      }
      if GivenTruthy(constants) && Evaluate(env, fuel, constants.value, scope).Ok? && Evaluate(env, fuel, constants.value, scope).value.Rec? {
        EvaluateFuelMonotone(env, fuel, more, body,
          DefineScope(scope, functions, Some(Evaluate(env, fuel, constants.value, scope).value.fields)));
      } else if !GivenTruthy(constants) {
        EvaluateFuelMonotone(env, fuel, more, body, DefineScope(scope, functions, None));
      }
    case CallOp(fn, arg) =>
      OptionalFuelMonotone(env, fuel, more, fn, scope);
      var name := Evaluate(env, fuel, fn, scope);
      if name.Ok? && name.value.Str? && name.value.s in scope.functions {
        var f := scope.functions[name.value.s];
        if GivenTruthy(arg) {
          OptionalFuelMonotone(env, fuel, more, arg.value, scope);
          var c := Evaluate(env, fuel, arg.value, scope);
          if c.Ok? {
            InvokeFuelMonotone(env, fuel, more, f, scope.(context := c.value));
          }
        } else {
          InvokeFuelMonotone(env, fuel, more, f, scope);
        }
      }
    case GetOp(name, default) =>
      OptionalFuelMonotone(env, fuel, more, name, scope);
      if GivenDefined(default) {
        OptionalFuelMonotone(env, fuel, more, default.value, scope);
      }
    case ExecOp(op, config, arg) =>
      if GivenDefined(config) {
        OptionalFuelMonotone(env, fuel, more, config.value, scope);
      }
      if GivenDefined(arg) {
        OptionalFuelMonotone(env, fuel, more, arg.value, scope);
      }
      var resolved := if !GivenDefined(config) then Ok(None) else
        match Evaluate(env, fuel, config.value, scope)
        case Fail(err) => Fail(err)
        case Ok(c) => Ok(Some(c));
      if resolved.Ok? {
        var opConfig := OperatorConfig(env.operatorKey, op, resolved.value);
        if opConfig.Ok? && env.compile(opConfig.value).Ok? {
          var context := if !GivenDefined(arg) then Ok(scope.context) else Evaluate(env, fuel, arg.value, scope);
          if context.Ok? {
            InvokeFuelMonotone(env, fuel, more, env.compile(opConfig.value).value, scope.(context := context.value));
          }
        }
      }
    case EvalOp(expression) =>
      OptionalFuelMonotone(env, fuel, more, expression, scope);
      var v := Evaluate(env, fuel, expression, scope);
      if v.Ok? && env.resolve(v.value).Ok? {
        InvokeFuelMonotone(env, fuel, more, env.resolve(v.value).value, scope);
      }
  }

  /** A sub-expression evaluated on the way: if it ran out of fuel so does the whole, else it is unchanged. */
  lemma {:induction false} OptionalFuelMonotone(env: Env, fuel: nat, more: nat, e: Expr, scope: Scope)
    requires fuel <= more
    ensures Evaluate(env, fuel, e, scope) != Fail(OutOfFuel) ==> Evaluate(env, more, e, scope) == Evaluate(env, fuel, e, scope)
    decreases fuel, Size(e), 1
  {
    if Evaluate(env, fuel, e, scope) != Fail(OutOfFuel) {
      EvaluateFuelMonotone(env, fuel, more, e, scope);
    }
  }

  lemma {:induction false} InvokeFuelMonotone(env: Env, fuel: nat, more: nat, op: Expr, scope: Scope)
    requires fuel <= more
    ensures Invoke(env, fuel, op, scope) != Fail(OutOfFuel) ==> Invoke(env, more, op, scope) == Invoke(env, fuel, op, scope)
    decreases fuel, 0
  {
    if fuel > 0 && Invoke(env, fuel, op, scope) != Fail(OutOfFuel) {
      EvaluateFuelMonotone(env, fuel - 1, more - 1, op, scope);
    }
  }

  /**
   * A tree built at run time and resolved by `eval` evaluates as the same tree
   * written statically, given the one extra unit of fuel `eval` spends.
   */
  lemma EvalMatchesStatic(env: Env, fuel: nat, v: Value, tree: Expr, scope: Scope)
    requires env.resolve(v) == Ok(tree)
    requires Evaluate(env, fuel, tree, scope) != Fail(OutOfFuel)
    ensures Evaluate(env, fuel + 1, EvalOp(Lit(v)), scope) == Evaluate(env, fuel + 1, tree, scope)
    ensures Evaluate(env, fuel + 1, tree, scope) == Evaluate(env, fuel, tree, scope)
  {
    assert Evaluate(env, fuel + 1, Lit(v), scope) == Ok(v);
    assert RunEval(env, fuel + 1, EvalOp(Lit(v)), scope) == Invoke(env, fuel + 1, tree, scope);
    assert Invoke(env, fuel + 1, tree, scope) == Evaluate(env, fuel, tree, scope);
    EvaluateFuelMonotone(env, fuel, fuel + 1, tree, scope);
  }
}
