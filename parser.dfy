/**
 * ExpressionParser: compiles one bare expression, which is blank, a double-quoted string,
 * `&name` or `$name(arg, ...)`.
 *
 * `ParseExpression` and its helpers are the reference definitions; `ParseStringLoop` and
 * `ParseFunctionLoop` are the character loops of `parseString` and `parseFunction`, proved to
 * compute exactly what the definitions say.
 */
module Parser {
  import opened Base
  import opened Contexts

  /** The `Class<T> expected` argument: its name and whether a String is assignable to it. */
  datatype ExpectedType = ExpectedType(className: string, acceptsString: bool)

  const StringClass := ExpectedType("java.lang.String", true)
  const ObjectClass := ExpectedType("java.lang.Object", true)

  function MismatchError(expression: string, expected: ExpectedType): Error {
    Error(InvalidSyntax, "Expression \"" + expression + "\" cannot be parsed to an Expression<"
                         + expected.className + ">")
  }

  function UnparsableError(expression: string): Error {
    Error(InvalidSyntax, "failed to parse expression: " + expression)
  }

  function InvalidStringError(s: string): Error {
    Error(InvalidSyntax, "not a valid string expression: " + s)
  }

  const MissingArgumentError := Error(InvalidSyntax, "Unexpected token ',' encountered. Expected: expression")

  /** What `"".substring(1)` throws when a call has no name-ending '('. */
  const NoNameError := Error(StringIndexOutOfBounds, "begin 1, end 0, length 0")

  // ---------------------------------------------------------------------------------------
  // parseString

  /** The remaining iterations of the `parseString` loop from index `i`. */
  function StringScan(s: string, i: nat, escape: bool, inStr: bool, token: string): Result<Expr>
    requires i <= |s|
    decreases |s| - i
  {
    if i == |s| then Err(InvalidStringError(s))
    else
      var a := s[i];
      if escape then StringScan(s, i + 1, false, inStr, token + [a])
      else if a == ' ' then StringScan(s, i + 1, false, inStr, if inStr then token + [a] else token)
      else if a == '\\' then StringScan(s, i + 1, true, inStr, token)
      else if a == '"' then
        if !inStr then StringScan(s, i + 1, false, true, [])
        else Ok(StringExpr(token))
      else StringScan(s, i + 1, false, inStr, token + [a])
  }

  /** `parseString`: the text between the first '"' and the next unescaped '"'. */
  function ParseString(s: string): Result<Expr> {
    StringScan(s, 0, false, false, [])
  }

  method ParseStringLoop(s: string) returns (r: Result<Expr>)
    ensures r == ParseString(s)
  {
    var escape, inStr, token := false, false, "";
    var i := 0;
    while i < |s|
      invariant 0 <= i <= |s|
      invariant StringScan(s, i, escape, inStr, token) == ParseString(s)
    {
      var a := s[i];
      if escape {
        escape := false;
        token := token + [a];
      } else if a == ' ' {
        if inStr {
          token := token + [a];
        }
      } else if a == '\\' {
        escape := true;
      } else if a == '"' {
        if !inStr {
          inStr := true;
          token := "";
        } else {
          return Ok(StringExpr(token));
        }
      } else {
        token := token + [a];
      }
      i := i + 1;
    }
    return Err(InvalidStringError(s));
  }

  // ---------------------------------------------------------------------------------------
  // parseExpression and parseFunction

  /** The local variables of the `parseFunction` loop. */
  datatype FunctionScan = FunctionScan(name: string, args: seq<Expr>, token: string,
                                       depth: int, escape: bool, inStr: bool)

  const FunctionScanStart := FunctionScan("", [], "", 0, false, false)

  /** `parseExpression(expression, expected)`. */
  function ParseExpression(expression: Option<string>, expected: ExpectedType, ctx: Context): (r: Result<Expr>)
    ensures expression.None? ==> r == Ok(NullExpr)
  {
    match expression
    case None => Ok(NullExpr)
    case Some(s) => Parse(s, expected, ctx)
  }

  /** `parseExpression` on a non-null string. */
  function Parse(s: string, expected: ExpectedType, ctx: Context): Result<Expr>
    decreases |s|, 2
  {
    var t := Trim(s);
    if s == [] || t == [] then
      if expected.acceptsString then Ok(StringExpr(s)) else Err(MismatchError(s, expected))
    else if t[0] == '"' then
      if expected.acceptsString then ParseString(t) else Err(MismatchError(t, expected))
    else if t[0] == '&' then Ok(VarExpr(t[1..], ctx))
    else if t[0] == '$' then ParseFunction(t, ctx)
    else Err(UnparsableError(s))
  }

  /** `parseFunction`: scan the whole text, then drop the '$' from the name. */
  function ParseFunction(f: string, ctx: Context): Result<Expr>
    decreases |f|, 1
  {
    var st :- FunctionScanFrom(f, 0, FunctionScanStart, ctx);
    if st.name == [] then Err(NoNameError) else Ok(FunctionExpr(ctx, st.name[1..], st.args))
  }

  /** The remaining iterations of the `parseFunction` loop from index `i`. */
  function FunctionScanFrom(f: string, i: nat, st: FunctionScan, ctx: Context): Result<FunctionScan>
    requires i <= |f| && |st.token| <= i
    decreases |f|, 0, |f| - i, 1
  {
    if i == |f| then Ok(st)
    else
      var next :- FunctionStep(f, i, st, ctx);
      FunctionScanFrom(f, i + 1, next, ctx)
  }

  /** One iteration of the `parseFunction` loop, on character `f[i]`. */
  function FunctionStep(f: string, i: nat, st: FunctionScan, ctx: Context): (r: Result<FunctionScan>)
    requires i < |f| && |st.token| <= i
    ensures r.Ok? ==> |r.value.token| <= i + 1
    decreases |f|, 0, |f| - i, 0
  {
    var a := f[i];
    if st.escape then Ok(st.(escape := false, token := st.token + [a]))
    else if a == '\\' then Ok(st.(escape := true))
    else if a == '"' then
      if !st.inStr then Ok(st.(inStr := true, depth := st.depth + 1, token := st.token + [a]))
      else Ok(st.(inStr := false, depth := st.depth - 1, token := st.token + [a]))
    else if a == '(' then
      var named := if st.depth == 0 then st.(name := st.token, token := []) else st.(token := st.token + [a]);
      Ok(if !st.inStr then named.(depth := named.depth + 1) else named)
    else if a == ')' then
      var depth := if !st.inStr then st.depth - 1 else st.depth;
      if depth == 0 then
        if !IsBlank(st.token) then
          var arg :- Parse(st.token, ObjectClass, ctx);
          Ok(st.(depth := depth, args := st.args + [arg], token := []))
        else Ok(st.(depth := depth))
      else Ok(st.(depth := depth, token := st.token + [a]))
    else if a == ',' then
      if st.depth == 1 then
        if !IsBlank(st.token) then
          var arg :- Parse(st.token, ObjectClass, ctx);
          Ok(st.(args := st.args + [arg], token := []))
        else Err(MissingArgumentError)
      else Ok(st.(token := st.token + [a]))
    else Ok(st.(token := st.token + [a]))
  }

  method ParseFunctionLoop(f: string, ctx: Context) returns (r: Result<Expr>)
    ensures r == ParseFunction(f, ctx)
  {
    var name, args, token := "", [], "";
    var depth := 0;
    var escape, inStr := false, false;
    var i := 0;
    while i < |f|
      invariant 0 <= i <= |f| && |token| <= i
      invariant FunctionScanFrom(f, i, FunctionScan(name, args, token, depth, escape, inStr), ctx)
             == FunctionScanFrom(f, 0, FunctionScanStart, ctx)
    {
      var a := f[i];
      if escape {
        escape := false;
        token := token + [a];
      } else if a == '\\' {
        escape := true;
      } else if a == '"' {
        if !inStr {
          inStr := true;
          depth := depth + 1;
        } else {
          inStr := false;
          depth := depth - 1;
        }
        token := token + [a];
      } else if a == '(' {
        if depth == 0 {
          name := token;
          token := "";
        } else {
          token := token + [a];
        }
        if !inStr {
          depth := depth + 1;
        }
      } else if a == ')' {
        if !inStr {
          depth := depth - 1;
        }
        if depth == 0 {
          if !IsBlank(token) {
            var arg := Parse(token, ObjectClass, ctx);
            if arg.Err? {
              return Err(arg.error);
            }
            args := args + [arg.value];
            token := "";
          }
        } else {
          token := token + [a];
        }
      } else if a == ',' {
        if depth == 1 {
          if !IsBlank(token) {
            var arg := Parse(token, ObjectClass, ctx);
            if arg.Err? {
              return Err(arg.error);
            }
            args := args + [arg.value];
            token := "";
          } else {
            return Err(MissingArgumentError);
          }
        } else {
          token := token + [a];
        }
      } else {
        token := token + [a];
      }
      i := i + 1;
    }
    if name == [] {
      return Err(NoNameError);
    }
    return Ok(FunctionExpr(ctx, name[1..], args));
  }
}
