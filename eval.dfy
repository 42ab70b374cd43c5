/**
 * Evaluation of compiled expressions, and the macro call of TestPlanYamlDocRoot.
 *
 * Evaluation returns a nullable string. It takes a fuel argument because a macro may call
 * itself without bound: every variable dereference and every macro call spends one unit, and
 * running out is `OutOfFuel`, which stands for the StackOverflowError the JVM would raise.
 */
module Evaluation {
  import opened Base
  import opened Contexts
  import opened Template

  const OutOfFuelError := Error(OutOfFuel, "stack overflow")

  /** What `List.get(index)` throws on a list of `length` elements when `index >= length`. */
  function IndexError(index: nat, length: nat): Error {
    Error(IndexOutOfBounds, "Index " + NatToString(index) + " out of bounds for length " + NatToString(length))
  }

  // ---------------------------------------------------------------------------------------
  // The macro call

  /** The parameters bound by the first `|args|` iterations of the binding loop. */
  function Bindings(names: seq<string>, args: seq<Expr>): (m: map<string, Expr>)
    requires |args| <= |names|
    ensures m.Keys == set k | 0 <= k < |args| :: names[k]
  {
    if args == [] then map[]
    else Bindings(names, args[..|args| - 1])[names[|args| - 1] := args[|args| - 1]]
  }

  /**
   * The parameters of a macro call: nothing when the macro declares no `args`, the i-th
   * argument under the i-th name otherwise (a repeated name keeps its last argument), and the
   * failure of `argNames.get(i)` when there are more arguments than names.
   */
  function BindParams(argNames: Option<seq<string>>, args: seq<Expr>): Result<map<string, Expr>> {
    match argNames
    case None => Ok(map[])
    case Some(names) =>
      if |args| > |names| then Err(IndexError(|names|, |names|)) else Ok(Bindings(names, args))
  }

  method BindParamsLoop(argNames: Option<seq<string>>, args: seq<Expr>) returns (r: Result<map<string, Expr>>)
    ensures r == BindParams(argNames, args)
  {
    var params: map<string, Expr> := map[];
    if argNames.Some? {
      var names := argNames.value;
      var i := 0;
      while i < |args|
        invariant 0 <= i <= |args| && i <= |names|
        invariant params == Bindings(names, args[..i])
      {
        if i >= |names| {
          return Err(IndexError(i, |names|));
        }
        assert args[..i + 1][..i] == args[..i];
        params := params[names[i] := args[i]];
        i := i + 1;
      }
      assert args[..i] == args;
    }
    return Ok(params);
  }

  /** The context a macro body is compiled against: the parameters over the macro's home. */
  function MacroContext(b: Binding, params: map<string, Expr>): (c: Context)
    ensures c.MapContext? && c.parent == b.home && c.vars == Some(params) && c.funcs.None?
  {
    MapContext(b.home, Some(params), None)
  }

  /** Binds the parameters, then compiles the `return` template anew, as every call does. */
  function MacroBody(b: Binding, args: seq<Expr>): Result<Expr> {
    var params :- BindParams(b.macro.argNames, args);
    Compile(b.macro.body, MacroContext(b, params))
  }

  // ---------------------------------------------------------------------------------------
  // Evaluation

  /** A segment's text in a concatenation: a caught exception contributes its message. */
  function Render(r: Result<Option<string>>): (t: Result<string>)
    ensures r.Ok? ==> t == Ok(JavaString(r.value))
    ensures r.Err? && IsException(r.error) ==> t == Ok(r.error.message)
    ensures r.Err? && !IsException(r.error) ==> t == Err(r.error)
  {
    match r
    case Ok(v) => Ok(JavaString(v))
    case Err(e) => if IsException(e) then Ok(e.message) else Err(e)
  }

  /**
   * `evaluate()`. A variable is looked up in its context and the expression found is
   * evaluated; a call looks its macro up at this moment, not when it was compiled.
   */
  function Eval(e: Expr, fuel: nat): Result<Option<string>>
    decreases fuel, e, if e.ConcatExpr? then |e.segments| + 1 else 0
  {
    match e
    case NullExpr => Ok(None)
    case StringExpr(v) => Ok(Some(v))
    case VarExpr(name, ctx) =>
      if ctx.NoContext? then Err(NullPointerError)
      else
        var value :- GetVar(ctx, name);
        if fuel == 0 then Err(OutOfFuelError) else Eval(value, fuel - 1)
    case FunctionExpr(ctx, name, args) =>
      if ctx.NoContext? then Err(NullPointerError)
      else
        var b :- GetFunction(ctx, name);
        if fuel == 0 then Err(OutOfFuelError)
        else
          var body :- MacroBody(b, args);
          Eval(body, fuel - 1)
    case ConcatExpr(segments) =>
      var text :- EvalSegments(e, |segments|, fuel);
      Ok(Some(text))
  }

  /** The text of the first `n` segments of a concatenation, left to right. */
  function EvalSegments(e: Expr, n: nat, fuel: nat): Result<string>
    requires e.ConcatExpr? && n <= |e.segments|
    decreases fuel, e, n
  {
    if n == 0 then Ok("")
    else
      var prefix :- EvalSegments(e, n - 1, fuel);
      var part :- Render(Eval(e.segments[n - 1], fuel));
      Ok(prefix + part)
  }

  /** A failure in the first `k` segments is the failure of the whole concatenation. */
  lemma {:induction false} SegmentsFailEarly(e: Expr, k: nat, n: nat, fuel: nat)
    requires e.ConcatExpr? && k <= n <= |e.segments|
    requires EvalSegments(e, k, fuel).Err?
    ensures EvalSegments(e, n, fuel) == EvalSegments(e, k, fuel)
    decreases n - k
  {
    if k < n {
      SegmentsFailEarly(e, k, n - 1, fuel);
    }
  }

  /** `ConcatStrExpression.evaluate`: the StringBuilder loop over the segments. */
  method EvaluateConcat(segments: seq<Expr>, fuel: nat) returns (r: Result<string>)
    ensures r == EvalSegments(ConcatExpr(segments), |segments|, fuel)
  {
    var sb := "";
    for i := 0 to |segments|
      invariant EvalSegments(ConcatExpr(segments), i, fuel) == Ok(sb)
    {
      var part := Render(Eval(segments[i], fuel));
      if part.Err? {
        SegmentsFailEarly(ConcatExpr(segments), i + 1, |segments|, fuel);
        return Err(part.error);
      }
      sb := sb + part.value;
    }
    return Ok(sb);
  }
}
