/**
 * Properties of evaluation: how a concatenation renders its segments, what a macro call
 * passes to the macro body, and where the names of the body are resolved.
 */
module EvaluationProperties {
  import opened Base
  import opened Contexts
  import opened Parser
  import opened ParserProperties
  import opened Template
  import opened TemplateProperties
  import opened Evaluation

  // ---------------------------------------------------------------------------------------
  // Concatenation

  /** The texts joined left to right. */
  function Join(parts: seq<string>): string {
    if parts == [] then "" else parts[0] + Join(parts[1..])
  }

  lemma {:induction false} JoinSnoc(parts: seq<string>, last: string)
    ensures Join(parts + [last]) == Join(parts) + last
  {
    if parts == [] {
      assert [] + [last] == [last];
    } else {
      assert (parts + [last])[1..] == parts[1..] + [last];
      JoinSnoc(parts[1..], last);
    }
  }

  /** Every segment the loop has rendered so far fails only when the stack overflows. */
  lemma {:induction false} SegmentsFailOnlyOutOfFuel(e: Expr, n: nat, fuel: nat)
    requires e.ConcatExpr? && n <= |e.segments|
    ensures var r := EvalSegments(e, n, fuel); r.Err? ==> r.error.kind == OutOfFuel
  {
    if n > 0 {
      SegmentsFailOnlyOutOfFuel(e, n - 1, fuel);
    }
  }

  /**
   * A concatenation catches every exception of its segments: it evaluates to a non-null
   * string unless evaluation overflows the stack.
   */
  lemma ConcatFailsOnlyOutOfFuel(segments: seq<Expr>, fuel: nat)
    ensures var r := Eval(ConcatExpr(segments), fuel);
            (r.Ok? && r.value.Some?) || (r.Err? && r.error.kind == OutOfFuel)
  {
    SegmentsFailOnlyOutOfFuel(ConcatExpr(segments), |segments|, fuel);
  }

  lemma {:induction false} SegmentsAreInOrder(e: Expr, n: nat, parts: seq<string>, fuel: nat)
    requires e.ConcatExpr? && n <= |e.segments| && |parts| == |e.segments|
    requires forall k :: 0 <= k < |parts| ==> Render(Eval(e.segments[k], fuel)) == Ok(parts[k])
    ensures EvalSegments(e, n, fuel) == Ok(Join(parts[..n]))
  {
    if n == 0 {
      assert parts[..0] == [];
    } else {
      SegmentsAreInOrder(e, n - 1, parts, fuel);
      assert parts[..n] == parts[..n - 1] + [parts[n - 1]];
      JoinSnoc(parts[..n - 1], parts[n - 1]);
    }
  }

  /**
   * A concatenation is its segments' texts joined in order, where a segment that throws
   * contributes the message of its exception and a null segment the text "null".
   */
  lemma ConcatIsInOrder(segments: seq<Expr>, parts: seq<string>, fuel: nat)
    requires |parts| == |segments|
    requires forall k :: 0 <= k < |parts| ==> Render(Eval(segments[k], fuel)) == Ok(parts[k])
    ensures Eval(ConcatExpr(segments), fuel) == Ok(Some(Join(parts)))
  {
    SegmentsAreInOrder(ConcatExpr(segments), |segments|, parts, fuel);
    assert parts[..|segments|] == parts;
  }

  /** A failing segment between two literals leaves them rendered around its message. */
  lemma FailingSegmentContributesMessage(p: string, failing: Expr, q: string, fuel: nat)
    requires Eval(failing, fuel).Err? && IsException(Eval(failing, fuel).error)
    ensures Eval(ConcatExpr([StringExpr(p), failing, StringExpr(q)]), fuel)
         == Ok(Some(p + Eval(failing, fuel).error.message + q))
  {
    var m := Eval(failing, fuel).error.message;
    ConcatIsInOrder([StringExpr(p), failing, StringExpr(q)], [p, m, q], fuel);
    assert [p, m, q][1..] == [m, q] && [m, q][1..] == [q] && [q][1..] == [];
    assert Join([q]) == q;
    assert Join([m, q]) == m + q;
    assert Join([p, m, q]) == p + (m + q);
    assert p + (m + q) == p + m + q;
  }

  // ---------------------------------------------------------------------------------------
  // Templates

  /** Text without `$` and `&` evaluates to itself. */
  lemma LiteralTemplateEvaluatesToItself(s: string, ctx: Context, fuel: nat)
    requires IsPlainText(s)
    ensures var r := Compile(Some(s), ctx); r.Ok? && Eval(r.value, fuel) == Ok(Some(s))
  {
    LiteralTemplate(s, ctx);
  }

  /**
   * A call compiles whatever its context holds, and an undefined macro only shows when the
   * template is evaluated: the text of the template is then the exception's message.
   */
  lemma UndefinedCallRendersMessage(n: string, ctx: Context, fuel: nat)
    requires IsPlainName(n)
    requires ctx.MapContext? && GetFunction(ctx, n).Err?
    ensures var r := Compile(Some(['$'] + n + ['(', ')']), ctx);
            r.Ok? && Eval(r.value, fuel) == Ok(Some("Undefined function: Undefined function: " + n))
  {
    CallTemplate(n, ctx);
    var e := ConcatExpr([FunctionExpr(ctx, n, []), StringExpr([])]);
    assert Compile(Some(['$'] + n + ['(', ')']), ctx) == Ok(e);
    UndefinedCallSegment(n, ctx, fuel);
  }

  lemma UndefinedCallSegment(n: string, ctx: Context, fuel: nat)
    requires ctx.MapContext? && GetFunction(ctx, n).Err?
    ensures Eval(ConcatExpr([FunctionExpr(ctx, n, []), StringExpr([])]), fuel)
         == Ok(Some("Undefined function: Undefined function: " + n))
  {
    var m := "Undefined function: Undefined function: " + n;
    var empty: string := [];
    var call := FunctionExpr(ctx, n, []);
    UndefinedCallFails(n, ctx, fuel);
    assert Render(Eval(call, fuel)) == Ok(m);
    ConcatOfTwo(call, StringExpr(empty), m, empty, fuel);
    assert m + empty == m;
  }

  /** A call of a function no context defines throws, with the twice-prefixed message. */
  lemma UndefinedCallFails(n: string, ctx: Context, fuel: nat)
    requires ctx.MapContext? && GetFunction(ctx, n).Err?
    ensures Eval(FunctionExpr(ctx, n, []), fuel)
         == Err(Error(UndefinedFunction, "Undefined function: Undefined function: " + n))
  {
    var prefix := "Undefined function: ";
    assert prefix + prefix == "Undefined function: Undefined function: ";
    assert UndefinedFunctionMessage(prefix + n) == prefix + prefix + n;
  }

  /** A two-segment concatenation renders both segments, in order. */
  lemma ConcatOfTwo(a: Expr, b: Expr, x: string, y: string, fuel: nat)
    requires Render(Eval(a, fuel)) == Ok(x) && Render(Eval(b, fuel)) == Ok(y)
    ensures Eval(ConcatExpr([a, b]), fuel) == Ok(Some(x + y))
  {
    var e := ConcatExpr([a, b]);
    assert EvalSegments(e, 1, fuel) == Ok(x) by {
      assert EvalSegments(e, 0, fuel) == Ok("");
      assert "" + x == x;
    }
    assert EvalSegments(e, 2, fuel) == Ok(x + y);
  }

  // ---------------------------------------------------------------------------------------
  // Macro calls

  /** The i-th argument is bound to the i-th name, unless a later argument reuses the name. */
  lemma {:induction false} BindingsAt(names: seq<string>, args: seq<Expr>, k: nat)
    requires |args| <= |names| && k < |args|
    requires forall j :: k < j < |args| ==> names[j] != names[k]
    ensures Bindings(names, args)[names[k]] == args[k]
  {
    if k < |args| - 1 {
      BindingsAt(names, args[..|args| - 1], k);
    }
  }

  /** More arguments than declared names fail at `argNames.get(|names|)`, after the lookup. */
  lemma TooManyArgumentsFail(ctx: Context, f: string, args: seq<Expr>, fuel: nat)
    requires ctx.MapContext? && GetFunction(ctx, f).Ok?
    requires var names := GetFunction(ctx, f).value.macro.argNames;
             names.Some? && |args| > |names.value|
    requires fuel > 0
    ensures var n := |GetFunction(ctx, f).value.macro.argNames.value|;
            Eval(FunctionExpr(ctx, f, args), fuel) == Err(IndexError(n, n))
  {
  }

  /** One macro call: the body compiled for the call is evaluated with one unit of fuel less. */
  lemma CallUnfolds(ctx: Context, f: string, args: seq<Expr>, fuel: nat, body: Expr)
    requires ctx.MapContext? && GetFunction(ctx, f).Ok? && fuel > 0
    requires MacroBody(GetFunction(ctx, f).value, args) == Ok(body)
    ensures Eval(FunctionExpr(ctx, f, args), fuel) == Eval(body, fuel - 1)
  {
  }

  /** One variable dereference: the expression found is evaluated with one unit of fuel less. */
  lemma VarUnfolds(ctx: Context, x: string, fuel: nat, value: Expr)
    requires !ctx.NoContext? && GetVar(ctx, x) == Ok(value) && fuel > 0
    ensures Eval(VarExpr(x, ctx), fuel) == Eval(value, fuel - 1)
  {
  }

  /**
   * A parameter stands for the argument expression itself, not its value: a body that is
   * just `&x` evaluates the caller's argument, in the caller's context, when it is reached.
   */
  lemma ParameterIsCallByName(ctx: Context, f: string, args: seq<Expr>, k: nat, fuel: nat)
    requires ctx.MapContext? && GetFunction(ctx, f).Ok?
    requires var m := GetFunction(ctx, f).value.macro;
             m.argNames.Some? && |args| <= |m.argNames.value| && k < |args|
             && m.body == Some(['&'] + m.argNames.value[k])
             && (forall j :: 0 <= j < |m.argNames.value[k]| ==> IsVarChar(m.argNames.value[k][j]))
             && (forall j :: k < j < |args| ==> m.argNames.value[j] != m.argNames.value[k])
    requires fuel >= 2
    ensures Eval(FunctionExpr(ctx, f, args), fuel) == Eval(args[k], fuel - 2)
  {
    var b := GetFunction(ctx, f).value;
    var names := b.macro.argNames.value;
    var x := names[k];
    var params := Bindings(names, args);
    BindingsAt(names, args, k);
    var mc := MacroContext(b, params);
    VariableTemplate(x, mc);
    assert MacroBody(b, args) == Ok(VarExpr(x, mc));
    CallUnfolds(ctx, f, args, fuel, VarExpr(x, mc));
    assert GetVar(mc, x) == Ok(args[k]);
    VarUnfolds(mc, x, fuel - 1, args[k]);
  }

  /**
   * A name the call does not bind is resolved where the macro is defined, whatever context
   * the call was compiled in: the body `&x` then reads `x` of the macro's home context.
   */
  lemma FreeNameResolvesInHome(ctx: Context, f: string, args: seq<Expr>, x: string, fuel: nat)
    requires ctx.MapContext? && GetFunction(ctx, f).Ok?
    requires var m := GetFunction(ctx, f).value.macro;
             BindParams(m.argNames, args).Ok? && m.body == Some(['&'] + x)
             && (m.argNames.Some? ==> forall j :: 0 <= j < |args| ==> m.argNames.value[j] != x)
    requires forall j :: 0 <= j < |x| ==> IsVarChar(x[j])
    requires fuel >= 1
    ensures Eval(FunctionExpr(ctx, f, args), fuel) == Eval(VarExpr(x, GetFunction(ctx, f).value.home), fuel - 1)
  {
    var b := GetFunction(ctx, f).value;
    var params := BindParams(b.macro.argNames, args).value;
    assert x !in params;
    VariableTemplate(x, MacroContext(b, params));
    MissingVarDefersToParent(b.home, Some(params), None, x);
  }

  /**
   * A macro whose body calls itself never returns: at every depth the call overflows, and
   * the concatenation around the recursive call does not catch it.
   */
  lemma {:induction false} RecursiveMacroRunsOutOfFuel(ctx: Context, f: string, fuel: nat)
    requires IsPlainName(f)
    requires ctx.MapContext? && GetFunction(ctx, f).Ok?
    requires GetFunction(ctx, f).value.macro.body == Some(['$'] + f + ['(', ')'])
    ensures Eval(FunctionExpr(ctx, f, []), fuel) == Err(OutOfFuelError)
    decreases fuel
  {
    if fuel > 0 {
      var b := GetFunction(ctx, f).value;
      var mc := MacroContext(b, map[]);
      assert BindParams(b.macro.argNames, []) == Ok(map[]);
      CallTemplate(f, mc);
      var body := ConcatExpr([FunctionExpr(mc, f, []), StringExpr([])]);
      assert MacroBody(b, []) == Ok(body);
      CallUnfolds(ctx, f, [], fuel, body);
      MissingFunctionDefersToParent(b.home, Some(map[]), None, f);
      assert GetFunction(mc, f) == Ok(b);
      RecursiveMacroRunsOutOfFuel(mc, f, fuel - 1);
      assert EvalSegments(body, 1, fuel - 1) == Err(OutOfFuelError) by {
        assert EvalSegments(body, 0, fuel - 1) == Ok("");
        assert Render(Eval(body.segments[0], fuel - 1)) == Err(OutOfFuelError);
      }
      SegmentsFailEarly(body, 1, 2, fuel - 1);
    }
  }
}
