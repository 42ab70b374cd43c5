/**
 * The expression tree and the scoping context it is compiled against
 * (Expression, VarExpression, FunctionExpression, ConcatStrExpression and MapContext).
 *
 * Every expression carries the context it was compiled against, as in Java where each
 * expression object keeps the `ExpressionContext` its parser was given. `NoContext`
 * stands for a null context; a `MapContext` whose parent is `NoContext` has no parent.
 */
module Contexts {
  import opened Base

  datatype Expr =
    | NullExpr                                              // NullExpression: evaluates to null
    | StringExpr(value: string)                             // StringExpression
    | VarExpr(name: string, ctx: Context)                   // VarExpression
    | FunctionExpr(ctx: Context, name: string, args: seq<Expr>)  // FunctionExpression
    | ConcatExpr(segments: seq<Expr>)                       // ConcatStrExpression

  datatype Context =
    | NoContext
    | MapContext(parent: Context, vars: Option<map<string, Expr>>, funcs: Option<map<string, Macro>>)

  /**
   * A macro as read from its definition file: the `args` list of parameter names (null when
   * the file has none) and the raw `return` template (null when absent).
   */
  datatype Macro = Macro(argNames: Option<seq<string>>, body: Option<string>)

  /**
   * What `getFunction` finds: the macro and the context that holds it. Macros are only ever
   * stored in the root context that defines them, and that root context is also the one
   * their closure captures, so `home` is the macro's definition-time context.
   */
  datatype Binding = Binding(macro: Macro, home: Context)

  /** `new MapContext(parent, vars, funcs)`: the maps are copied, so they are plain values here. */
  function NewMapContext(parent: Context, vars: Option<map<string, Expr>>,
                         funcs: Option<map<string, Macro>>): (c: Context)
    ensures c.MapContext? && c.parent == parent && c.vars == vars && c.funcs == funcs
  {
    MapContext(parent, vars, funcs)
  }

  /** True when `c` itself (not its parents) binds variable `key`. */
  predicate HasLocalVar(c: Context, key: string) {
    c.MapContext? && c.vars.Some? && key in c.vars.value
  }

  /** True when `c` itself (not its parents) binds function `name`. */
  predicate HasLocalFunction(c: Context, name: string) {
    c.MapContext? && c.funcs.Some? && name in c.funcs.value
  }

  /** The message of `new DoclerkException("undefined var: " + key)`. */
  function UndefinedVarMessage(key: string): string {
    "undefined var: " + key
  }

  /**
   * The message of `new UndefinedFunctionException("Undefined function: " + name)`: the
   * exception's constructor adds the same prefix a second time.
   */
  function UndefinedFunctionMessage(funcName: string): string {
    "Undefined function: " + funcName
  }

  /** `MapContext.getVar`. */
  function GetVar(c: Context, key: string): (r: Result<Expr>)
    requires c.MapContext?
    ensures r.Err? ==> r.error == Error(DoclerkFailure, UndefinedVarMessage(key))
    decreases c
  {
    if c.vars.Some? && key in c.vars.value then Ok(c.vars.value[key])
    else if c.parent.MapContext? then GetVar(c.parent, key)
    else Err(Error(DoclerkFailure, UndefinedVarMessage(key)))
  }

  /** `MapContext.getFunction`, returning the macro with the context that holds it. */
  function GetFunction(c: Context, name: string): (r: Result<Binding>)
    requires c.MapContext?
    ensures r.Err? ==> r.error == Error(UndefinedFunction, UndefinedFunctionMessage("Undefined function: " + name))
    ensures r.Ok? ==> HasLocalFunction(r.value.home, name) && r.value.macro == r.value.home.funcs.value[name]
    decreases c
  {
    if c.funcs.Some? && name in c.funcs.value then Ok(Binding(c.funcs.value[name], c))
    else if c.parent.MapContext? then GetFunction(c.parent, name)
    else Err(Error(UndefinedFunction, UndefinedFunctionMessage("Undefined function: " + name)))
  }

  // ---------------------------------------------------------------------------------------
  // The parent chain as an independent reference: a lookup answers with the first layer of
  // the chain that binds the name.

  /** The contexts consulted by a lookup, nearest first. */
  function Chain(c: Context): (s: seq<Context>)
    ensures forall k :: 0 <= k < |s| ==> s[k].MapContext?
    ensures c.MapContext? ==> s != [] && s[0] == c
    ensures c.NoContext? ==> s == []
  {
    if c.NoContext? then [] else [c] + Chain(c.parent)
  }

  /** The index of the first layer of `layers` that binds variable `key`, if any. */
  function FirstVarLayer(layers: seq<Context>, key: string): (r: Option<nat>)
    ensures r.Some? ==> r.value < |layers| && HasLocalVar(layers[r.value], key)
    ensures r.Some? ==> forall k :: 0 <= k < r.value ==> !HasLocalVar(layers[k], key)
    ensures r.None? ==> forall k :: 0 <= k < |layers| ==> !HasLocalVar(layers[k], key)
  {
    if layers == [] then None
    else if HasLocalVar(layers[0], key) then Some(0)
    else match FirstVarLayer(layers[1..], key)
      case None => None
      case Some(k) => Some(k + 1)
  }

  /** The index of the first layer of `layers` that binds function `name`, if any. */
  function FirstFunctionLayer(layers: seq<Context>, name: string): (r: Option<nat>)
    ensures r.Some? ==> r.value < |layers| && HasLocalFunction(layers[r.value], name)
    ensures r.Some? ==> forall k :: 0 <= k < r.value ==> !HasLocalFunction(layers[k], name)
    ensures r.None? ==> forall k :: 0 <= k < |layers| ==> !HasLocalFunction(layers[k], name)
  {
    if layers == [] then None
    else if HasLocalFunction(layers[0], name) then Some(0)
    else match FirstFunctionLayer(layers[1..], name)
      case None => None
      case Some(k) => Some(k + 1)
  }

  /**
   * A variable lookup answers with the binding of the nearest context in the parent chain
   * that holds the name, and fails with "undefined var" exactly when no context does.
   */
  lemma {:induction false} GetVarIsNearestBinding(c: Context, key: string)
    requires c.MapContext?
    ensures var layers := Chain(c);
            match FirstVarLayer(layers, key)
            case Some(k) => GetVar(c, key) == Ok(layers[k].vars.value[key])
            case None => GetVar(c, key) == Err(Error(DoclerkFailure, UndefinedVarMessage(key)))
    decreases c
  {
    var layers := Chain(c);
    if !HasLocalVar(c, key) && c.parent.MapContext? {
      GetVarIsNearestBinding(c.parent, key);
      assert layers[1..] == Chain(c.parent);
    }
  }

  /** The same for functions: the nearest holder wins, and its context is returned with it. */
  lemma {:induction false} GetFunctionIsNearestBinding(c: Context, name: string)
    requires c.MapContext?
    ensures var layers := Chain(c);
            match FirstFunctionLayer(layers, name)
            case Some(k) => GetFunction(c, name) == Ok(Binding(layers[k].funcs.value[name], layers[k]))
            case None => GetFunction(c, name).Err? && GetFunction(c, name).error.kind == UndefinedFunction
    decreases c
  {
    var layers := Chain(c);
    if !HasLocalFunction(c, name) && c.parent.MapContext? {
      GetFunctionIsNearestBinding(c.parent, name);
      assert layers[1..] == Chain(c.parent);
    }
  }

  /** A local variable shadows whatever the parent chain binds under the same name. */
  lemma LocalVarShadowsParent(parent: Context, vars: map<string, Expr>,
                              funcs: Option<map<string, Macro>>, key: string)
    requires key in vars
    ensures GetVar(MapContext(parent, Some(vars), funcs), key) == Ok(vars[key])
  {
  }

  /** Without a local binding, a variable lookup is the parent's lookup. */
  lemma MissingVarDefersToParent(parent: Context, vars: Option<map<string, Expr>>,
                                 funcs: Option<map<string, Macro>>, key: string)
    requires parent.MapContext?
    requires vars.None? || key !in vars.value
    ensures GetVar(MapContext(parent, vars, funcs), key) == GetVar(parent, key)
  {
  }

  /** A local function shadows the parent chain, and is found together with its holder. */
  lemma LocalFunctionShadowsParent(parent: Context, vars: Option<map<string, Expr>>,
                                   funcs: map<string, Macro>, name: string)
    requires name in funcs
    ensures GetFunction(MapContext(parent, vars, Some(funcs)), name)
         == Ok(Binding(funcs[name], MapContext(parent, vars, Some(funcs))))
  {
  }

  /** Without a local binding, a function lookup is the parent's lookup. */
  lemma MissingFunctionDefersToParent(parent: Context, vars: Option<map<string, Expr>>,
                                      funcs: Option<map<string, Macro>>, name: string)
    requires parent.MapContext?
    requires funcs.None? || name !in funcs.value
    ensures GetFunction(MapContext(parent, vars, funcs), name) == GetFunction(parent, name)
  {
  }

  /**
   * The two name spaces are independent: the variables of a chain have no influence on its
   * function lookups, and its functions none on its variable lookups.
   */
  lemma NameSpacesAreIndependent(c: Context, otherVars: Option<map<string, Expr>>,
                                                    otherFuncs: Option<map<string, Macro>>, key: string)
    requires c.MapContext?
    ensures GetVar(c, key) == GetVar(MapContext(c.parent, c.vars, otherFuncs), key)
    ensures match (GetFunction(c, key), GetFunction(MapContext(c.parent, otherVars, c.funcs), key))
            case (Ok(b1), Ok(b2)) => b1.macro == b2.macro
            case (Err(e1), Err(e2)) => e1 == e2
            case _ => false
  {
  }

  /** Without a parent, a missing variable is a plain DoclerkException, never an UndefinedVariableException. */
  lemma MissingVarIsPlainFailure(vars: Option<map<string, Expr>>, funcs: Option<map<string, Macro>>, key: string)
    requires vars.None? || key !in vars.value
    ensures GetVar(MapContext(NoContext, vars, funcs), key).Err?
    ensures GetVar(MapContext(NoContext, vars, funcs), key).error.kind == DoclerkFailure
    ensures GetVar(MapContext(NoContext, vars, funcs), key).error.message == "undefined var: " + key
  {
  }

  /** Without a parent, a missing function carries the twice-prefixed message. */
  lemma MissingFunctionMessage(vars: Option<map<string, Expr>>, funcs: Option<map<string, Macro>>, name: string)
    requires funcs.None? || name !in funcs.value
    ensures GetFunction(MapContext(NoContext, vars, funcs), name)
         == Err(Error(UndefinedFunction, "Undefined function: Undefined function: " + name))
  {
    var prefix := "Undefined function: ";
    assert prefix + prefix == "Undefined function: Undefined function: ";
    assert UndefinedFunctionMessage(prefix + name) == prefix + prefix + name;
  }
}
