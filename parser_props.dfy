/**
 * Properties of ExpressionParser: the shape dispatch of `parseExpression`, the string
 * literal round trip, and how `parseFunction` finds the name and splits the arguments.
 */
module ParserProperties {
  import opened Base
  import opened Contexts
  import opened Parser

  // ---------------------------------------------------------------------------------------
  // parseExpression dispatch

  /** Null gives a NullExpression; blank text gives a literal of the untrimmed text. */
  lemma {:induction false} BlankParsesToLiteral(s: string, expected: ExpectedType, ctx: Context)
    requires IsBlank(s)
    ensures expected.acceptsString ==> Parse(s, expected, ctx) == Ok(StringExpr(s))
    ensures !expected.acceptsString ==> Parse(s, expected, ctx) == Err(MismatchError(s, expected))
  {
  }

  /** Text whose trimmed form starts with none of the three sigils is a syntax error. */
  lemma {:induction false} UnknownShapeIsSyntaxError(s: string, expected: ExpectedType, ctx: Context)
    requires !IsBlank(s)
    requires Trim(s)[0] != '"' && Trim(s)[0] != '&' && Trim(s)[0] != '$'
    ensures Parse(s, expected, ctx) == Err(UnparsableError(s))
    ensures Parse(s, expected, ctx).error.kind == InvalidSyntax
  {
  }

  /** `&rest` names the variable by the whole remainder of the trimmed text, whatever it holds. */
  lemma {:induction false} VariableTakesWholeRemainder(s: string, expected: ExpectedType, ctx: Context)
    requires !IsBlank(s) && Trim(s)[0] == '&'
    ensures Parse(s, expected, ctx) == Ok(VarExpr(Trim(s)[1..], ctx))
  {
  }

  /** A quoted string asked for as a type that cannot hold a String is rejected before it is read. */
  lemma {:induction false} QuotedMismatchIsSyntaxError(s: string, expected: ExpectedType, ctx: Context)
    requires !IsBlank(s) && Trim(s)[0] == '"' && !expected.acceptsString
    ensures Parse(s, expected, ctx) == Err(MismatchError(Trim(s), expected))
  {
  }

  // ---------------------------------------------------------------------------------------
  // String literals: a backslash makes the next character literal.

  predicate IsSpecialInString(c: char) {
    c == '"' || c == '\\'
  }

  /** Writes `x` so that `parseString` reads it back: '"' and '\' get a backslash. */
  function Escape(x: string): (r: string)
    ensures |r| >= |x|
  {
    if x == [] then []
    else (if IsSpecialInString(x[0]) then ['\\', x[0]] else [x[0]]) + Escape(x[1..])
  }

  function Quote(x: string): string {
    ['"'] + Escape(x) + ['"']
  }

  lemma {:induction false} ScanEscaped(s: string, i: nat, token: string, x: string, rest: string)
    requires i <= |s| && s[i..] == Escape(x) + ['"'] + rest
    ensures StringScan(s, i, false, true, token) == Ok(StringExpr(token + x))
    decreases x
  {
    if x == [] {
      assert s[i] == '"';
      assert token + x == token;
    } else if IsSpecialInString(x[0]) {
      assert s[i] == '\\' && s[i + 1] == x[0];
      assert s[i + 2..] == Escape(x[1..]) + ['"'] + rest;
      ScanEscaped(s, i + 2, token + [x[0]], x[1..], rest);
      assert token + [x[0]] + x[1..] == token + x;
    } else {
      assert s[i] == x[0];
      assert s[i + 1..] == Escape(x[1..]) + ['"'] + rest;
      ScanEscaped(s, i + 1, token + [x[0]], x[1..], rest);
      assert token + [x[0]] + x[1..] == token + x;
    }
  }

  lemma {:induction false} ScanEscapedUnclosed(s: string, i: nat, token: string, x: string)
    requires i <= |s| && s[i..] == Escape(x)
    ensures StringScan(s, i, false, true, token) == Err(InvalidStringError(s))
    decreases x
  {
    if x == [] {
      assert i == |s|;
    } else if IsSpecialInString(x[0]) {
      assert s[i] == '\\' && s[i + 1] == x[0];
      assert s[i + 2..] == Escape(x[1..]);
      ScanEscapedUnclosed(s, i + 2, token + [x[0]], x[1..]);
    } else {
      assert s[i] == x[0];
      assert s[i + 1..] == Escape(x[1..]);
      ScanEscapedUnclosed(s, i + 1, token + [x[0]], x[1..]);
    }
  }

  /** Round trip: the literal reads back the escaped text, and anything after the closing quote is ignored. */
  lemma {:induction false} ParseStringOfQuote(x: string, rest: string)
    ensures ParseString(Quote(x) + rest) == Ok(StringExpr(x))
  {
    var s := Quote(x) + rest;
    assert s[0] == '"';
    assert s[1..] == Escape(x) + ['"'] + rest;
    ScanEscaped(s, 1, [], x, rest);
    assert [] + x == x;
  }

  /** A literal without its closing quote is a syntax error. */
  lemma {:induction false} UnclosedStringIsSyntaxError(x: string)
    ensures ParseString(['"'] + Escape(x)) == Err(InvalidStringError(['"'] + Escape(x)))
  {
    var s := ['"'] + Escape(x);
    assert s[1..] == Escape(x);
    ScanEscapedUnclosed(s, 1, [], x);
  }

  /** A trimmed text that starts with '"' is read by `parseString`, when a String is acceptable. */
  lemma {:induction false} ParseQuotedText(t: string, expected: ExpectedType, ctx: Context)
    requires t != [] && Trim(t) == t && t[0] == '"' && expected.acceptsString
    ensures Parse(t, expected, ctx) == ParseString(t)
  {
  }

  /** The bare-expression entry point reads a quoted literal back, when a String is acceptable. */
  lemma {:induction false} ParseQuotedLiteral(x: string, expected: ExpectedType, ctx: Context)
    requires expected.acceptsString
    ensures Parse(Quote(x), expected, ctx) == Ok(StringExpr(x))
  {
    var q := Quote(x);
    assert q != [] && Trim(q) == q && q[0] == '"' by {
      assert q[0] == '"' && q[|q| - 1] == '"';
      TrimOfTrimmed(q);
    }
    ParseQuotedText(q, expected, ctx);
    assert ParseString(q) == Ok(StringExpr(x)) by {
      ParseStringOfQuote(x, []);
      assert q + [] == q;
    }
  }

  // ---------------------------------------------------------------------------------------
  // parseFunction: the name, and arguments that are quoted literals

  /** Characters that leave the `parseFunction` state alone apart from being copied. */
  predicate IsPlainNameChar(c: char) {
    c != '(' && c != ')' && c != '"' && c != '\\'
  }

  predicate IsPlainName(n: string) {
    forall k :: 0 <= k < |n| ==> IsPlainNameChar(n[k])
  }

  predicate IsQuotable(w: string) {
    forall k :: 0 <= k < |w| ==> !IsSpecialInString(w[k])
  }

  // One iteration of the loop, case by case.

  lemma {:induction false} StepThen(f: string, i: nat, st: FunctionScan, next: FunctionScan, ctx: Context)
    requires i < |f| && |st.token| <= i && FunctionStep(f, i, st, ctx) == Ok(next)
    ensures FunctionScanFrom(f, i, st, ctx) == FunctionScanFrom(f, i + 1, next, ctx)
  {
  }

  /** A character that is neither a backslash nor a quote, and has no structural role here, is copied. */
  lemma {:induction false} StepCopies(f: string, i: nat, st: FunctionScan, ctx: Context)
    requires i < |f| && |st.token| <= i && !st.escape && f[i] != '\\' && f[i] != '"'
    requires f[i] == '(' || f[i] == ')' ==> st.inStr && st.depth != 0
    requires f[i] == ',' ==> st.depth != 1
    ensures FunctionStep(f, i, st, ctx) == Ok(st.(token := st.token + [f[i]]))
  {
  }

  lemma {:induction false} StepOpensQuote(f: string, i: nat, st: FunctionScan, ctx: Context)
    requires i < |f| && |st.token| <= i && !st.escape && !st.inStr && f[i] == '"'
    ensures FunctionStep(f, i, st, ctx) == Ok(st.(inStr := true, depth := st.depth + 1, token := st.token + ['"']))
  {
  }

  lemma {:induction false} StepClosesQuote(f: string, i: nat, st: FunctionScan, ctx: Context)
    requires i < |f| && |st.token| <= i && !st.escape && st.inStr && f[i] == '"'
    ensures FunctionStep(f, i, st, ctx) == Ok(st.(inStr := false, depth := st.depth - 1, token := st.token + ['"']))
  {
  }

  /** The first '(' outside quotes ends the name. */
  lemma {:induction false} StepOpensCall(f: string, i: nat, st: FunctionScan, ctx: Context)
    requires i < |f| && |st.token| <= i && !st.escape && !st.inStr && st.depth == 0 && f[i] == '('
    ensures FunctionStep(f, i, st, ctx) == Ok(st.(name := st.token, token := [], depth := 1))
  {
  }

  /** The closing ')' turns a pending non-blank token into the last argument. */
  lemma {:induction false} StepEndsArgument(f: string, i: nat, st: FunctionScan, arg: Expr, ctx: Context)
    requires i < |f| && |st.token| <= i && !st.escape && !st.inStr && st.depth == 1 && f[i] == ')'
    requires !IsBlank(st.token) && Parse(st.token, ObjectClass, ctx) == Ok(arg)
    ensures FunctionStep(f, i, st, ctx) == Ok(st.(depth := 0, args := st.args + [arg], token := []))
  {
    var parsed := Parse(st.token, ObjectClass, ctx);
    assert parsed.Ok? && parsed.value == arg;
  }

  /** The closing ')' drops a blank pending token. */
  lemma {:induction false} StepClosesCall(f: string, i: nat, st: FunctionScan, ctx: Context)
    requires i < |f| && |st.token| <= i && !st.escape && !st.inStr && st.depth == 1 && f[i] == ')'
    requires IsBlank(st.token)
    ensures FunctionStep(f, i, st, ctx) == Ok(st.(depth := 0))
  {
  }

  /** A ',' at depth 1 turns a pending non-blank token into an argument. */
  lemma {:induction false} StepSplitsArgument(f: string, i: nat, st: FunctionScan, arg: Expr, ctx: Context)
    requires i < |f| && |st.token| <= i && !st.escape && st.depth == 1 && f[i] == ','
    requires !IsBlank(st.token) && Parse(st.token, ObjectClass, ctx) == Ok(arg)
    ensures FunctionStep(f, i, st, ctx) == Ok(st.(args := st.args + [arg], token := []))
  {
    var parsed := Parse(st.token, ObjectClass, ctx);
    assert parsed.Ok? && parsed.value == arg;
  }

  /** A ',' at depth 1 with a blank pending token is a syntax error. */
  lemma {:induction false} StepRejectsEmptyArgument(f: string, i: nat, st: FunctionScan, ctx: Context)
    requires i < |f| && |st.token| <= i && !st.escape && st.depth == 1 && f[i] == ','
    requires IsBlank(st.token)
    ensures FunctionStep(f, i, st, ctx) == Err(MissingArgumentError)
  {
  }

  // The same cases, as steps of the whole scan.

  lemma {:induction false} CopyThen(f: string, i: nat, st: FunctionScan, ctx: Context)
    requires i < |f| && |st.token| <= i && !st.escape && f[i] != '\\' && f[i] != '"'
    requires f[i] == '(' || f[i] == ')' ==> st.inStr && st.depth != 0
    requires f[i] == ',' ==> st.depth != 1
    ensures FunctionScanFrom(f, i, st, ctx) == FunctionScanFrom(f, i + 1, st.(token := st.token + [f[i]]), ctx)
  {
    StepCopies(f, i, st, ctx);
    StepThen(f, i, st, st.(token := st.token + [f[i]]), ctx);
  }

  lemma {:induction false} OpenQuoteThen(f: string, i: nat, st: FunctionScan, ctx: Context)
    requires i < |f| && |st.token| <= i && !st.escape && !st.inStr && f[i] == '"'
    ensures FunctionScanFrom(f, i, st, ctx)
         == FunctionScanFrom(f, i + 1, st.(inStr := true, depth := st.depth + 1, token := st.token + ['"']), ctx)
  {
    StepOpensQuote(f, i, st, ctx);
    StepThen(f, i, st, st.(inStr := true, depth := st.depth + 1, token := st.token + ['"']), ctx);
  }

  lemma {:induction false} CloseQuoteThen(f: string, i: nat, st: FunctionScan, ctx: Context)
    requires i < |f| && |st.token| <= i && !st.escape && st.inStr && f[i] == '"'
    ensures FunctionScanFrom(f, i, st, ctx)
         == FunctionScanFrom(f, i + 1, st.(inStr := false, depth := st.depth - 1, token := st.token + ['"']), ctx)
  {
    StepClosesQuote(f, i, st, ctx);
    StepThen(f, i, st, st.(inStr := false, depth := st.depth - 1, token := st.token + ['"']), ctx);
  }

  lemma {:induction false} ArgumentThen(f: string, i: nat, st: FunctionScan, arg: Expr, ctx: Context)
    requires i < |f| && |st.token| <= i && !st.escape && !st.inStr && st.depth == 1 && (f[i] == ')' || f[i] == ',')
    requires !IsBlank(st.token) && Parse(st.token, ObjectClass, ctx) == Ok(arg)
    ensures FunctionScanFrom(f, i, st, ctx)
         == FunctionScanFrom(f, i + 1, st.(depth := if f[i] == ')' then 0 else 1, args := st.args + [arg], token := []), ctx)
  {
    if f[i] == ')' {
      StepEndsArgument(f, i, st, arg, ctx);
    } else {
      StepSplitsArgument(f, i, st, arg, ctx);
    }
    StepThen(f, i, st, st.(depth := if f[i] == ')' then 0 else 1, args := st.args + [arg], token := []), ctx);
  }

  // Where the characters of a piece of text sit in the expression.

  lemma {:induction false} SliceSplit(f: string, i: nat, a: string, b: string)
    requires i + |a| + |b| <= |f| && f[i..i + |a| + |b|] == a + b
    ensures f[i..i + |a|] == a && f[i + |a|..i + |a| + |b|] == b
  {
    var g := f[i..i + |a| + |b|];
    forall k | 0 <= k < |a| ensures f[i..i + |a|][k] == a[k] {
      assert f[i..i + |a|][k] == g[k] == (a + b)[k];
    }
    forall k | 0 <= k < |b| ensures f[i + |a|..i + |a| + |b|][k] == b[k] {
      assert f[i + |a|..i + |a| + |b|][k] == g[|a| + k] == (a + b)[|a| + k];
    }
  }

  lemma {:induction false} SliceCons(f: string, i: nat, n: string)
    requires n != [] && i + |n| <= |f| && f[i..i + |n|] == n
    ensures f[i] == n[0] && f[i + 1..i + 1 + |n[1..]|] == n[1..]
  {
    assert n == [n[0]] + n[1..];
    SliceSplit(f, i, [n[0]], n[1..]);
    assert f[i] == f[i..i + 1][0];
  }

  lemma {:induction false} QuotedAt(f: string, i: nat, w: string)
    requires i + |w| + 2 <= |f| && f[i..i + |w| + 2] == ['"'] + w + ['"']
    ensures f[i] == '"' && f[i + 1..i + 1 + |w|] == w && f[i + 1 + |w|] == '"'
  {
    SliceSplit(f, i, ['"'], w + ['"']);
    SliceSplit(f, i + 1, w, ['"']);
    assert f[i] == f[i..i + 1][0];
    assert f[i + 1 + |w|] == f[i + 1 + |w|..i + 2 + |w|][0];
  }

  lemma {:induction false} ItemAt(f: string, i: nat, w: string, sep: char)
    requires i + |w| + 3 <= |f| && f[i..i + |w| + 3] == ['"'] + w + ['"', sep]
    ensures f[i..i + |w| + 2] == ['"'] + w + ['"'] && f[i + |w| + 2] == sep
  {
    var u := ['"'] + w + ['"'];
    assert ['"'] + w + ['"', sep] == u + [sep];
    SliceSplit(f, i, u, [sep]);
    assert f[i + |w| + 2] == f[i + |u|..i + |u| + 1][0];
  }

  /** Where the first item of a quoted list, its separator and the rest of the list sit. */
  lemma {:induction false} ListAt(f: string, i: nat, ws: seq<string>)
    requires ws != [] && i + |QuotedList(ws)| + 1 <= |f| && f[i..i + |QuotedList(ws)| + 1] == QuotedList(ws) + [')']
    ensures var w := ws[0];
            i + |w| + 3 <= |f|
            && (|ws| == 1 ==> f[i..i + |w| + 3] == ['"'] + w + ['"', ')'] && |QuotedList(ws)| + 1 == |w| + 3)
            && (|ws| > 1 ==>
                  var rest := QuotedList(ws[1..]);
                  f[i..i + |w| + 3] == ['"'] + w + ['"', ',']
                  && i + |w| + 3 + |rest| + 1 <= |f|
                  && f[i + |w| + 3..i + |w| + 3 + |rest| + 1] == rest + [')']
                  && i + |QuotedList(ws)| + 1 == i + |w| + 3 + |rest| + 1)
  {
    var w := ws[0];
    if |ws| == 1 {
      assert QuotedList(ws) + [')'] == ['"'] + w + ['"', ')'];
    } else {
      var rest := QuotedList(ws[1..]);
      var head := ['"'] + w + ['"', ','];
      assert QuotedList(ws) + [')'] == head + (rest + [')']);
      SliceSplit(f, i, head, rest + [')']);
    }
  }

  lemma {:induction false} LiteralsCons(ws: seq<string>)
    requires ws != []
    ensures Literals(ws) == [StringExpr(ws[0])] + Literals(ws[1..])
  {
  }

  lemma {:induction false} ScanPlainText(f: string, i: nat, st: FunctionScan, n: string, ctx: Context)
    requires i + |n| <= |f| && f[i..i + |n|] == n && |st.token| <= i
    requires IsPlainName(n) && !st.escape && st.depth == 0
    ensures FunctionScanFrom(f, i, st, ctx) == FunctionScanFrom(f, i + |n|, st.(token := st.token + n), ctx)
    decreases |n|
  {
    if n != [] {
      SliceCons(f, i, n);
      CopyThen(f, i, st, ctx);
      ScanPlainText(f, i + 1, st.(token := st.token + [n[0]]), n[1..], ctx);
      assert st.token + [n[0]] + n[1..] == st.token + n;
    } else {
      assert st.token + n == st.token;
    }
  }

  lemma {:induction false} ScanQuotedText(f: string, i: nat, st: FunctionScan, w: string, ctx: Context)
    requires i + |w| <= |f| && f[i..i + |w|] == w && |st.token| <= i
    requires IsQuotable(w) && !st.escape && st.inStr && st.depth != 0 && st.depth != 1
    ensures FunctionScanFrom(f, i, st, ctx) == FunctionScanFrom(f, i + |w|, st.(token := st.token + w), ctx)
    decreases |w|
  {
    if w != [] {
      SliceCons(f, i, w);
      CopyThen(f, i, st, ctx);
      ScanQuotedText(f, i + 1, st.(token := st.token + [w[0]]), w[1..], ctx);
      assert st.token + [w[0]] + w[1..] == st.token + w;
    } else {
      assert st.token + w == st.token;
    }
  }

  /** The comma-separated list of quoted literals `"w1","w2",...`. */
  function QuotedList(ws: seq<string>): string
    requires ws != []
  {
    if |ws| == 1 then ['"'] + ws[0] + ['"'] else ['"'] + ws[0] + ['"'] + [','] + QuotedList(ws[1..])
  }

  function Literals(ws: seq<string>): (r: seq<Expr>)
    ensures |r| == |ws| && forall k :: 0 <= k < |ws| ==> r[k] == StringExpr(ws[k])
  {
    seq(|ws|, k requires 0 <= k < |ws| => StringExpr(ws[k]))
  }

  /** A quoted argument text parses, with Object expected, to the literal it quotes. */
  lemma {:induction false} QuotedArgumentParses(w: string, ctx: Context)
    requires IsQuotable(w)
    ensures !IsBlank(['"'] + w + ['"'])
    ensures Parse(['"'] + w + ['"'], ObjectClass, ctx) == Ok(StringExpr(w))
  {
    EscapeOfQuotable(w);
    ParseQuotedLiteral(w, ObjectClass, ctx);
    assert Quote(w) == ['"'] + w + ['"'];
    TrimOfTrimmed(Quote(w));
  }

  lemma {:induction false} EscapeOfQuotable(w: string)
    requires IsQuotable(w)
    ensures Escape(w) == w
    decreases |w|
  {
    if w != [] {
      EscapeOfQuotable(w[1..]);
      assert [w[0]] + w[1..] == w;
    }
  }

  /** The parts of a quoted word: the opening quote, the word, the closing quote. */
  lemma {:induction false} QuotedParts(w: string)
    ensures var u := ['"'] + w + ['"'];
            |u| == |w| + 2 && u[0] == '"' && u[1..1 + |w|] == w && u[1 + |w|] == '"'
  {
    var u := ['"'] + w + ['"'];
    assert forall k :: 0 <= k < |w| ==> u[1..1 + |w|][k] == w[k];
  }

  /** Scanning one quoted argument at depth 1 copies it into the pending token. */
  lemma {:induction false} ScanQuotedArgument(f: string, i: nat, st: FunctionScan, w: string, ctx: Context)
    requires i + |w| + 2 <= |f| && f[i..i + |w| + 2] == ['"'] + w + ['"']
    requires IsQuotable(w) && st.token == [] && st.depth == 1 && !st.escape && !st.inStr
    ensures FunctionScanFrom(f, i, st, ctx)
         == FunctionScanFrom(f, i + |w| + 2, st.(token := ['"'] + w + ['"']), ctx)
  {
    QuotedAt(f, i, w);
    var inQuote := st.(inStr := true, depth := 2, token := ['"']);
    OpenQuoteThen(f, i, st, ctx);
    assert st.(inStr := true, depth := st.depth + 1, token := st.token + ['"']) == inQuote;
    ScanQuotedText(f, i + 1, inQuote, w, ctx);
    var inText := inQuote.(token := ['"'] + w);
    CloseQuoteThen(f, i + 1 + |w|, inText, ctx);
    assert inText.(inStr := false, depth := inText.depth - 1, token := inText.token + ['"'])
        == st.(token := ['"'] + w + ['"']);
  }

  /** `QuotedList` splits after its first literal. */
  lemma {:induction false} QuotedListHead(ws: seq<string>)
    requires ws != []
    ensures |QuotedList(ws)| >= |ws[0]| + 2
    ensures QuotedList(ws)[..|ws[0]| + 2] == ['"'] + ws[0] + ['"']
    ensures |ws| == 1 ==> |QuotedList(ws)| == |ws[0]| + 2
    ensures |ws| > 1 ==> QuotedList(ws)[|ws[0]| + 2..] == [','] + QuotedList(ws[1..])
  {
    var h := ['"'] + ws[0] + ['"'];
    if |ws| > 1 {
      assert QuotedList(ws) == h + ([','] + QuotedList(ws[1..]));
    }
  }

  /** The ',' or ')' after a pending quoted argument turns it into a literal argument. */
  lemma {:induction false} QuotedArgumentThen(f: string, j: nat, name: string, args: seq<Expr>, w: string, ctx: Context)
    requires j < |f| && |w| + 2 <= j && (f[j] == ',' || f[j] == ')') && IsQuotable(w)
    ensures FunctionScanFrom(f, j, FunctionScan(name, args, ['"'] + w + ['"'], 1, false, false), ctx)
         == FunctionScanFrom(f, j + 1, FunctionScan(name, args + [StringExpr(w)], [], if f[j] == ')' then 0 else 1, false, false), ctx)
  {
    QuotedArgumentParses(w, ctx);
    ArgumentThen(f, j, FunctionScan(name, args, ['"'] + w + ['"'], 1, false, false), StringExpr(w), ctx);
  }

  /** One quoted argument and the ',' or ')' after it: the literal is appended to the arguments. */
  lemma {:induction false} ScanListItem(f: string, i: nat, name: string, args: seq<Expr>, w: string, sep: char, ctx: Context)
    requires sep == ',' || sep == ')'
    requires i + |w| + 3 <= |f| && f[i..i + |w| + 3] == ['"'] + w + ['"', sep] && IsQuotable(w)
    ensures FunctionScanFrom(f, i, FunctionScan(name, args, [], 1, false, false), ctx)
         == FunctionScanFrom(f, i + |w| + 3,
                             FunctionScan(name, args + [StringExpr(w)], [], if sep == ')' then 0 else 1, false, false), ctx)
  {
    ItemAt(f, i, w, sep);
    ScanQuotedArgument(f, i, FunctionScan(name, args, [], 1, false, false), w, ctx);
    QuotedArgumentThen(f, i + |w| + 2, name, args, w, ctx);
  }

  /** The last literal of a quoted list, and the ')' after it, close the call. */
  lemma {:induction false} ScanLastListItem(f: string, i: nat, name: string, args: seq<Expr>, ws: seq<string>, ctx: Context)
    requires |ws| == 1 && forall k :: 0 <= k < |ws| ==> IsQuotable(ws[k])
    requires i + |QuotedList(ws)| + 1 <= |f| && f[i..i + |QuotedList(ws)| + 1] == QuotedList(ws) + [')']
    ensures FunctionScanFrom(f, i, FunctionScan(name, args, [], 1, false, false), ctx)
         == FunctionScanFrom(f, i + |QuotedList(ws)| + 1, FunctionScan(name, args + Literals(ws), [], 0, false, false), ctx)
  {
    ListAt(f, i, ws);
    assert IsQuotable(ws[0]);
    ScanListItem(f, i, name, args, ws[0], ')', ctx);
    assert Literals(ws) == [StringExpr(ws[0])];
  }

  /** A literal of a quoted list that is not the last one, and the ',' after it. */
  lemma {:induction false} ScanListHeadItem(f: string, i: nat, name: string, args: seq<Expr>, ws: seq<string>, ctx: Context)
    requires |ws| > 1 && forall k :: 0 <= k < |ws| ==> IsQuotable(ws[k])
    requires i + |QuotedList(ws)| + 1 <= |f| && f[i..i + |QuotedList(ws)| + 1] == QuotedList(ws) + [')']
    ensures var j := i + |ws[0]| + 3;
            var rest := QuotedList(ws[1..]);
            j + |rest| + 1 <= |f| && f[j..j + |rest| + 1] == rest + [')']
            && i + |QuotedList(ws)| + 1 == j + |rest| + 1
            && (forall k :: 0 <= k < |ws[1..]| ==> IsQuotable(ws[1..][k]))
            && FunctionScanFrom(f, i, FunctionScan(name, args, [], 1, false, false), ctx)
               == FunctionScanFrom(f, j, FunctionScan(name, args + [StringExpr(ws[0])], [], 1, false, false), ctx)
  {
    ListAt(f, i, ws);
    assert IsQuotable(ws[0]);
    ScanListItem(f, i, name, args, ws[0], ',', ctx);
    assert forall k :: 0 <= k < |ws[1..]| ==> ws[1..][k] == ws[k + 1];
  }

  /** Scanning `"w1",...,"wk")` at depth 1 appends the k literals in order and returns to depth 0. */
  lemma {:induction false} ScanQuotedList(f: string, i: nat, name: string, args: seq<Expr>,
                                          ws: seq<string>, ctx: Context)
    requires ws != [] && forall k :: 0 <= k < |ws| ==> IsQuotable(ws[k])
    requires i + |QuotedList(ws)| + 1 <= |f| && f[i..i + |QuotedList(ws)| + 1] == QuotedList(ws) + [')']
    ensures FunctionScanFrom(f, i, FunctionScan(name, args, [], 1, false, false), ctx)
         == FunctionScanFrom(f, i + |QuotedList(ws)| + 1, FunctionScan(name, args + Literals(ws), [], 0, false, false), ctx)
    decreases |ws|
  {
    if |ws| == 1 {
      ScanLastListItem(f, i, name, args, ws, ctx);
    } else {
      ScanListHeadItem(f, i, name, args, ws, ctx);
      ScanQuotedList(f, i + |ws[0]| + 3, name, args + [StringExpr(ws[0])], ws[1..], ctx);
      LiteralsJoin(args, ws);
    }
  }

  /** The literal of the first word, then those of the rest, are the literals of all words. */
  lemma {:induction false} LiteralsJoin(args: seq<Expr>, ws: seq<string>)
    requires ws != []
    ensures args + [StringExpr(ws[0])] + Literals(ws[1..]) == args + Literals(ws)
  {
    LiteralsCons(ws);
  }

  /** Scanning `$n` leaves the name-to-be `$n` pending at depth 0. */
  lemma {:induction false} ScanSigilAndName(f: string, n: string, ctx: Context)
    requires |n| + 1 <= |f| && f[..|n| + 1] == ['$'] + n && IsPlainName(n)
    ensures FunctionScanFrom(f, 0, FunctionScanStart, ctx)
         == FunctionScanFrom(f, |n| + 1, FunctionScanStart.(token := ['$'] + n), ctx)
  {
    assert f[0] == (['$'] + n)[0] == '$';
    var st := FunctionScanStart.(token := ['$']);
    StepCopies(f, 0, FunctionScanStart, ctx);
    assert FunctionScanStart.token + [f[0]] == ['$'];
    StepThen(f, 0, FunctionScanStart, st, ctx);
    assert f[1..1 + |n|] == (['$'] + n)[1..] == n;
    ScanPlainText(f, 1, st, n, ctx);
  }

  /** Scanning `$n(` opens the call with name `$n` and nothing pending. */
  lemma {:induction false} ScanCallHead(f: string, n: string, ctx: Context)
    requires |n| + 2 <= |f| && f[..|n| + 2] == ['$'] + n + ['('] && IsPlainName(n)
    ensures FunctionScanFrom(f, 0, FunctionScanStart, ctx)
         == FunctionScanFrom(f, |n| + 2, FunctionScan(['$'] + n, [], [], 1, false, false), ctx)
  {
    assert f[..|n| + 1] == (['$'] + n + ['('])[..|n| + 1] == ['$'] + n;
    ScanSigilAndName(f, n, ctx);
    assert f[|n| + 1] == (['$'] + n + ['('])[|n| + 1] == '(';
    var st := FunctionScanStart.(token := ['$'] + n);
    StepOpensCall(f, |n| + 1, st, ctx);
    StepThen(f, |n| + 1, st, FunctionScan(['$'] + n, [], [], 1, false, false), ctx);
  }

  /** `$n()` is a call of `n` with no arguments: the blank final argument is dropped. */
  lemma {:induction false} CallWithoutArguments(n: string, ctx: Context)
    requires IsPlainName(n)
    ensures ParseFunction(['$'] + n + ['(', ')'], ctx) == Ok(FunctionExpr(ctx, n, []))
  {
    var f := ['$'] + n + ['(', ')'];
    assert f[..|n| + 2] == ['$'] + n + ['('];
    ScanCallHead(f, n, ctx);
    var open := FunctionScan(['$'] + n, [], [], 1, false, false);
    assert f[|n| + 2] == ')';
    StepClosesCall(f, |n| + 2, open, ctx);
    StepThen(f, |n| + 2, open, open.(depth := 0), ctx);
    assert (['$'] + n)[1..] == n;
  }

  /** Without any '(' the name is never set and `name.substring(1)` throws. */
  lemma {:induction false} CallWithoutParenthesis(n: string, ctx: Context)
    requires IsPlainName(n)
    ensures ParseFunction(['$'] + n, ctx) == Err(NoNameError)
  {
    var f := ['$'] + n;
    assert f[..|n| + 1] == f;
    ScanSigilAndName(f, n, ctx);
  }

  /** A ',' at depth 1 with nothing pending before it is a syntax error. */
  lemma {:induction false} LeadingCommaIsSyntaxError(n: string, rest: string, ctx: Context)
    requires IsPlainName(n)
    ensures ParseFunction(['$'] + n + ['(', ','] + rest, ctx) == Err(MissingArgumentError)
  {
    var f := ['$'] + n + ['(', ','] + rest;
    assert f[..|n| + 2] == ['$'] + n + ['('];
    ScanCallHead(f, n, ctx);
    var open := FunctionScan(['$'] + n, [], [], 1, false, false);
    assert f[|n| + 2] == ',';
    StepRejectsEmptyArgument(f, |n| + 2, open, ctx);
  }

  /**
   * `$n("w1",...,"wk")` calls `n` with the k literals in order. Commas and parentheses inside
   * the quotes neither split an argument nor close the call.
   */
  lemma {:induction false} CallWithQuotedArguments(n: string, ws: seq<string>, ctx: Context)
    requires IsPlainName(n) && ws != [] && forall k :: 0 <= k < |ws| ==> IsQuotable(ws[k])
    ensures ParseFunction(['$'] + n + ['('] + QuotedList(ws) + [')'], ctx)
         == Ok(FunctionExpr(ctx, n, Literals(ws)))
  {
    var head := ['$'] + n + ['('];
    var f := head + (QuotedList(ws) + [')']);
    assert ['$'] + n + ['('] + QuotedList(ws) + [')'] == f;
    CallTextAt(f, head, QuotedList(ws) + [')']);
    ScanCallHead(f, n, ctx);
    ScanQuotedList(f, |n| + 2, ['$'] + n, [], ws, ctx);
    var end := FunctionScan(['$'] + n, [] + Literals(ws), [], 0, false, false);
    assert FunctionScanFrom(f, |f|, end, ctx) == Ok(end);
    assert [] + Literals(ws) == Literals(ws);
    assert (['$'] + n)[1..] == n;
  }

  /** Where the head of a call text and the rest of it sit. */
  lemma {:induction false} CallTextAt(f: string, head: string, rest: string)
    requires f == head + rest
    ensures f[..|head|] == head && f[|head|..|head| + |rest|] == rest
  {
    SliceSplit(f, 0, head, rest);
  }
  // ---------------------------------------------------------------------------------------
  // parseFunction: backslashes, nested calls and arguments that are not literals

  /** Outside an escape, a backslash is dropped from the text and marks the next character. */
  lemma {:induction false} StepStartsEscape(f: string, i: nat, st: FunctionScan, ctx: Context)
    requires i < |f| && |st.token| <= i && !st.escape && f[i] == '\\'
    ensures FunctionStep(f, i, st, ctx) == Ok(st.(escape := true))
  {
  }

  /** The character after a backslash is copied, whatever it is, and changes nothing else. */
  lemma {:induction false} StepCopiesEscaped(f: string, i: nat, st: FunctionScan, ctx: Context)
    requires i < |f| && |st.token| <= i && st.escape
    ensures FunctionStep(f, i, st, ctx) == Ok(st.(escape := false, token := st.token + [f[i]]))
  {
  }

  /** Inside a call, a '(' outside quotes is copied and opens one more level. */
  lemma {:induction false} StepOpensInnerCall(f: string, i: nat, st: FunctionScan, ctx: Context)
    requires i < |f| && |st.token| <= i && !st.escape && !st.inStr && st.depth != 0 && f[i] == '('
    ensures FunctionStep(f, i, st, ctx) == Ok(st.(token := st.token + ['('], depth := st.depth + 1))
  {
  }

  /** Below the call's own level, a ')' outside quotes is copied and closes one level. */
  lemma {:induction false} StepClosesInnerCall(f: string, i: nat, st: FunctionScan, ctx: Context)
    requires i < |f| && |st.token| <= i && !st.escape && !st.inStr && st.depth != 1 && f[i] == ')'
    ensures FunctionStep(f, i, st, ctx) == Ok(st.(depth := st.depth - 1, token := st.token + [')']))
  {
  }

  lemma {:induction false} StartEscapeThen(f: string, i: nat, st: FunctionScan, ctx: Context)
    requires i < |f| && |st.token| <= i && !st.escape && f[i] == '\\'
    ensures FunctionScanFrom(f, i, st, ctx) == FunctionScanFrom(f, i + 1, st.(escape := true), ctx)
  {
    StepStartsEscape(f, i, st, ctx);
  }

  lemma {:induction false} EscapedThen(f: string, i: nat, st: FunctionScan, next: FunctionScan, ctx: Context)
    requires i < |f| && |st.token| <= i && st.escape
    requires next == st.(escape := false, token := st.token + [f[i]])
    ensures FunctionScanFrom(f, i, st, ctx) == FunctionScanFrom(f, i + 1, next, ctx)
  {
    StepCopiesEscaped(f, i, st, ctx);
  }

  lemma {:induction false} OpenInnerCallThen(f: string, i: nat, st: FunctionScan, ctx: Context)
    requires i < |f| && |st.token| <= i && !st.escape && !st.inStr && st.depth != 0 && f[i] == '('
    ensures FunctionScanFrom(f, i, st, ctx) == FunctionScanFrom(f, i + 1, st.(token := st.token + ['('], depth := st.depth + 1), ctx)
  {
    StepOpensInnerCall(f, i, st, ctx);
  }

  lemma {:induction false} CloseInnerCallThen(f: string, i: nat, st: FunctionScan, next: FunctionScan, ctx: Context)
    requires i < |f| && |st.token| <= i && !st.escape && !st.inStr && st.depth != 1 && f[i] == ')'
    requires next == st.(depth := st.depth - 1, token := st.token + [')'])
    ensures FunctionScanFrom(f, i, st, ctx) == FunctionScanFrom(f, i + 1, next, ctx)
  {
    StepClosesInnerCall(f, i, st, ctx);
  }

  /** Text an argument can hold without changing the scan: no structural character and no ','. */
  predicate IsArgumentText(t: string) {
    forall k :: 0 <= k < |t| ==> IsPlainNameChar(t[k]) && t[k] != ','
  }

  lemma {:induction false} ArgumentTextAppend(x: string, y: string)
    requires IsArgumentText(x) && IsArgumentText(y)
    ensures IsArgumentText(x + y)
  {
    assert forall k :: |x| <= k < |x + y| ==> (x + y)[k] == y[k - |x|];
  }

  /** Between the arguments of a call, argument text is copied into the pending token. */
  lemma {:induction false} ScanArgumentText(f: string, i: nat, st: FunctionScan, t: string, ctx: Context)
    requires i + |t| <= |f| && f[i..i + |t|] == t && |st.token| <= i
    requires IsArgumentText(t) && !st.escape && !st.inStr && st.depth == 1
    ensures FunctionScanFrom(f, i, st, ctx) == FunctionScanFrom(f, i + |t|, st.(token := st.token + t), ctx)
    decreases |t|
  {
    if t != [] {
      var st1 := st.(token := st.token + [t[0]]);
      assert FunctionScanFrom(f, i, st, ctx) == FunctionScanFrom(f, i + 1, st1, ctx) by {
        SliceCons(f, i, t);
        CopyThen(f, i, st, ctx);
      }
      assert FunctionScanFrom(f, i + 1, st1, ctx) == FunctionScanFrom(f, i + |t|, st.(token := st.token + t), ctx) by {
        SliceCons(f, i, t);
        assert IsArgumentText(t[1..]) by {
          assert forall k :: 0 <= k < |t[1..]| ==> t[1..][k] == t[k + 1];
        }
        ScanArgumentText(f, i + 1, st1, t[1..], ctx);
        assert st1.token + t[1..] == st.token + t;
      }
    } else {
      assert st.token + t == st.token;
    }
  }

  /** An opening quote and quotable text: both are copied, and the scan is inside the string. */
  lemma {:induction false} ScanOpenQuote(f: string, i: nat, st: FunctionScan, w: string, ctx: Context)
    requires i + 1 + |w| <= |f| && f[i] == '"' && f[i + 1..i + 1 + |w|] == w && IsQuotable(w)
    requires |st.token| <= i && st.depth >= 1 && !st.escape && !st.inStr
    ensures FunctionScanFrom(f, i, st, ctx)
         == FunctionScanFrom(f, i + 1 + |w|, st.(inStr := true, depth := st.depth + 1, token := st.token + ['"'] + w), ctx)
  {
    OpenQuoteThen(f, i, st, ctx);
    var open := st.(inStr := true, depth := st.depth + 1, token := st.token + ['"']);
    ScanQuotedText(f, i + 1, open, w, ctx);
  }

  /** The closing ')' of a call whose one argument is pending: the call is complete. */
  lemma {:induction false} CallEndsWithArgument(f: string, n: string, t: string, e: Expr, ctx: Context)
    requires |t| < |f| && f[|f| - 1] == ')' && !IsBlank(t) && Parse(t, ObjectClass, ctx) == Ok(e)
    requires FunctionScanFrom(f, 0, FunctionScanStart, ctx)
          == FunctionScanFrom(f, |f| - 1, FunctionScan(['$'] + n, [], t, 1, false, false), ctx)
    ensures ParseFunction(f, ctx) == Ok(FunctionExpr(ctx, n, [e]))
  {
    var st := FunctionScan(['$'] + n, [], t, 1, false, false);
    ArgumentThen(f, |f| - 1, st, e, ctx);
    var end := FunctionScan(['$'] + n, [e], [], 0, false, false);
    assert st.(depth := 0, args := st.args + [e], token := []) == end;
    assert FunctionScanFrom(f, |f|, end, ctx) == Ok(end);
    assert (['$'] + n)[1..] == n;
  }

  /** `&x` as an argument parses to the variable `x`. */
  lemma {:induction false} VariableArgumentParses(t: string, x: string, ctx: Context)
    requires t != [] && t[0] == '&' && t[1..] == x && !IsTrimmed(t[|t| - 1])
    ensures !IsBlank(t) && Parse(t, ObjectClass, ctx) == Ok(VarExpr(x, ctx))
  {
    TrimOfTrimmed(t);
    VariableTakesWholeRemainder(t, ObjectClass, ctx);
  }

  /**
   * `$n(&x)` calls `n` with the variable `x`: an argument that is not a literal is parsed again
   * as a whole expression.
   */
  lemma {:induction false} VariableArgument(n: string, x: string, ctx: Context)
    requires IsPlainName(n) && IsArgumentText(x) && (x == [] || !IsTrimmed(x[|x| - 1]))
    ensures ParseFunction(['$'] + n + ['(', '&'] + x + [')'], ctx) == Ok(FunctionExpr(ctx, n, [VarExpr(x, ctx)]))
  {
    var t := ['&'] + x;
    var f := ['$'] + n + ['('] + t + [')'];
    assert ['$'] + n + ['(', '&'] + x + [')'] == f;
    assert IsArgumentText(t) by {
      assert forall k :: 1 <= k < |t| ==> t[k] == x[k - 1];
    }
    CallOfOneArgument(f, n, t, ctx);
    assert !IsBlank(t) && Parse(t, ObjectClass, ctx) == Ok(VarExpr(x, ctx)) by {
      assert t[0] == '&' && t[1..] == x && t[|t| - 1] == (if x == [] then '&' else x[|x| - 1]);
      VariableArgumentParses(t, x, ctx);
    }
    CallEndsWithArgument(f, n, t, VarExpr(x, ctx), ctx);
  }

  /** Where the head, the one argument and the closing ')' of a call text sit. */
  lemma {:induction false} CallOfOneArgumentAt(n: string, t: string)
    ensures var f := ['$'] + n + ['('] + t + [')'];
            |f| == |n| + |t| + 3 && f[..|n| + 2] == ['$'] + n + ['('] && f[|n| + 2..|n| + 2 + |t|] == t && f[|f| - 1] == ')'
  {
    var head := ['$'] + n + ['('];
    var f := head + t + [')'];
    assert f == head + (t + [')']);
    CallTextAt(f, head, t + [')']);
    SliceSplit(f, |head|, t, [')']);
  }

  /** A call whose one argument is argument text: the text is pending when the closing ')' comes. */
  lemma {:induction false} CallOfOneArgument(f: string, n: string, t: string, ctx: Context)
    requires f == ['$'] + n + ['('] + t + [')'] && IsPlainName(n) && IsArgumentText(t)
    ensures |t| < |f| && f[|f| - 1] == ')'
    ensures FunctionScanFrom(f, 0, FunctionScanStart, ctx)
         == FunctionScanFrom(f, |f| - 1, FunctionScan(['$'] + n, [], t, 1, false, false), ctx)
  {
    CallOfOneArgumentAt(n, t);
    ScanCallHead(f, n, ctx);
    var open := FunctionScan(['$'] + n, [], [], 1, false, false);
    ScanArgumentText(f, |n| + 2, open, t, ctx);
    assert open.(token := open.token + t) == FunctionScan(['$'] + n, [], t, 1, false, false);
  }

  /**
   * A blank text after the last ',' is dropped by the closing ')', where before a ',' it would
   * be a syntax error: `$n("w", )` calls `n` with the one literal.
   */
  lemma {:induction false} TrailingBlankArgumentDropped(n: string, w: string, sp: string, ctx: Context)
    requires IsPlainName(n) && IsQuotable(w) && forall k :: 0 <= k < |sp| ==> IsTrimmed(sp[k])
    ensures ParseFunction(['$'] + n + ['(', '"'] + w + ['"', ','] + sp + [')'], ctx)
         == Ok(FunctionExpr(ctx, n, [StringExpr(w)]))
  {
    var f := ['$'] + n + ['(', '"'] + w + ['"', ','] + sp + [')'];
    var j := |n| + 2 + |w| + 3;
    var last := FunctionScan(['$'] + n, [] + [StringExpr(w)], sp, 0, false, false);
    TrailingBlankCallAt(n, w, sp);
    assert FunctionScanFrom(f, 0, FunctionScanStart, ctx) == FunctionScanFrom(f, j, FunctionScan(['$'] + n, [] + [StringExpr(w)], [], 1, false, false), ctx) by {
      ScanCallHead(f, n, ctx);
      ScanListItem(f, |n| + 2, ['$'] + n, [], w, ',', ctx);
    }
    ScanTrailingBlank(f, j, ['$'] + n, [] + [StringExpr(w)], sp, ctx);
    assert FunctionScanFrom(f, |f|, last, ctx) == Ok(last);
    assert (['$'] + n)[1..] == n && [] + [StringExpr(w)] == [StringExpr(w)];
  }

  /** Where the head, the literal with its ',', the blank text and the ')' of such a call sit. */
  lemma {:induction false} TrailingBlankCallAt(n: string, w: string, sp: string)
    ensures var f := ['$'] + n + ['(', '"'] + w + ['"', ','] + sp + [')'];
            var j := |n| + 2 + |w| + 3;
            |f| == j + |sp| + 1 && f[..|n| + 2] == ['$'] + n + ['('] && f[|n| + 2..j] == ['"'] + w + ['"', ',']
            && f[j..j + |sp|] == sp && f[j + |sp|] == ')'
  {
    var head := ['$'] + n + ['('];
    var item := ['"'] + w + ['"', ','];
    var f := head + (item + (sp + [')']));
    assert ['$'] + n + ['(', '"'] + w + ['"', ','] + sp + [')'] == f;
    CallTextAt(f, head, item + (sp + [')']));
    SliceSplit(f, |head|, item, sp + [')']);
    SliceSplit(f, |head| + |item|, sp, [')']);
  }

  /** Blank text and the closing ')' after the last ',': the call ends with nothing added. */
  lemma {:induction false} ScanTrailingBlank(f: string, i: nat, name: string, args: seq<Expr>, sp: string, ctx: Context)
    requires forall k :: 0 <= k < |sp| ==> IsTrimmed(sp[k])
    requires i + |sp| + 1 <= |f| && f[i..i + |sp|] == sp && f[i + |sp|] == ')'
    ensures FunctionScanFrom(f, i, FunctionScan(name, args, [], 1, false, false), ctx)
         == FunctionScanFrom(f, i + |sp| + 1, FunctionScan(name, args, sp, 0, false, false), ctx)
  {
    BlankIsArgumentText(sp);
    ScanBlankText(f, i, name, args, sp, ctx);
    ClosesBlankThen(f, i + |sp|, FunctionScan(name, args, sp, 1, false, false), FunctionScan(name, args, sp, 0, false, false), ctx);
  }

  /** Blank text holds none of the characters that steer the scan. */
  lemma {:induction false} BlankIsArgumentText(sp: string)
    requires forall k :: 0 <= k < |sp| ==> IsTrimmed(sp[k])
    ensures IsArgumentText(sp) && IsBlank(sp)
  {
    BlankIffAllTrimmed(sp);
  }

  lemma {:induction false} ScanBlankText(f: string, i: nat, name: string, args: seq<Expr>, sp: string, ctx: Context)
    requires IsArgumentText(sp) && i + |sp| <= |f| && f[i..i + |sp|] == sp
    ensures FunctionScanFrom(f, i, FunctionScan(name, args, [], 1, false, false), ctx)
         == FunctionScanFrom(f, i + |sp|, FunctionScan(name, args, sp, 1, false, false), ctx)
  {
    var st := FunctionScan(name, args, [], 1, false, false);
    ScanArgumentText(f, i, st, sp, ctx);
    assert st.(token := st.token + sp) == FunctionScan(name, args, sp, 1, false, false);
  }

  lemma {:induction false} ClosesBlankThen(f: string, i: nat, st: FunctionScan, next: FunctionScan, ctx: Context)
    requires i < |f| && |st.token| <= i && !st.escape && !st.inStr && st.depth == 1 && f[i] == ')'
    requires IsBlank(st.token) && next == st.(depth := 0)
    ensures FunctionScanFrom(f, i, st, ctx) == FunctionScanFrom(f, i + 1, next, ctx)
  {
    StepClosesCall(f, i, st, ctx);
  }

  /** The text of a call of `m` with one quoted literal. */
  function InnerCall(m: string, w: string): string {
    ['$'] + m + ['(', '"'] + w + ['"', ')']
  }

  lemma {:induction false} InnerCallText(m: string, w: string)
    ensures InnerCall(m, w) == ['$'] + m + ['('] + ['"'] + w + ['"'] + [')'] && |InnerCall(m, w)| == |m| + |w| + 5
  {
  }

  /** A nested call's text parses, with Object expected, to the call. */
  lemma {:induction false} InnerCallParses(m: string, w: string, ctx: Context)
    requires IsPlainName(m) && IsQuotable(w)
    ensures !IsBlank(InnerCall(m, w)) && Parse(InnerCall(m, w), ObjectClass, ctx) == Ok(FunctionExpr(ctx, m, [StringExpr(w)]))
  {
    var inner := InnerCall(m, w);
    CallWithQuotedArguments(m, [w], ctx);
    assert QuotedList([w]) == ['"'] + w + ['"'];
    assert ['$'] + m + ['('] + QuotedList([w]) + [')'] == inner;
    assert Literals([w]) == [StringExpr(w)];
    assert inner[0] == '$' && inner[|inner| - 1] == ')';
    TrimOfTrimmed(inner);
  }

  /** The head of a nested call, `$m(`, inside a call: copied, one level deeper. */
  lemma {:induction false} ScanInnerCallHead(f: string, i: nat, name: string, args: seq<Expr>, m: string, ctx: Context)
    requires IsArgumentText(m) && i + |m| + 2 <= |f| && f[i..i + |m| + 2] == ['$'] + m + ['(']
    ensures FunctionScanFrom(f, i, FunctionScan(name, args, [], 1, false, false), ctx)
         == FunctionScanFrom(f, i + |m| + 2, FunctionScan(name, args, ['$'] + m + ['('], 2, false, false), ctx)
  {
    var sm := ['$'] + m;
    InnerCallHeadAt(f, i, m);
    var st := FunctionScan(name, args, [], 1, false, false);
    ScanArgumentText(f, i, st, sm, ctx);
    var named := st.(token := st.token + sm);
    OpenInnerCallThen(f, i + |sm|, named, ctx);
    assert named.(token := named.token + ['('], depth := named.depth + 1) == FunctionScan(name, args, sm + ['('], 2, false, false);
  }

  lemma {:induction false} InnerCallHeadAt(f: string, i: nat, m: string)
    requires IsArgumentText(m) && i + |m| + 2 <= |f| && f[i..i + |m| + 2] == ['$'] + m + ['(']
    ensures var sm := ['$'] + m;
            IsArgumentText(sm) && f[i..i + |sm|] == sm && f[i + |sm|] == '('
  {
    var sm := ['$'] + m;
    SliceSplit(f, i, sm, ['(']);
    ArgumentTextAppend(['$'], m);
    assert f[i + |sm|] == f[i + |sm|..i + |sm| + 1][0];
  }

  /**
   * A nested call inside a call is copied whole into the pending token: its quotes, commas and
   * parentheses neither split the outer call's arguments nor close it.
   */
  lemma {:induction false} ScanInnerCall(f: string, i: nat, name: string, args: seq<Expr>, m: string, w: string, ctx: Context)
    requires IsArgumentText(m) && IsQuotable(w)
    requires i + |InnerCall(m, w)| <= |f| && f[i..i + |InnerCall(m, w)|] == InnerCall(m, w)
    ensures FunctionScanFrom(f, i, FunctionScan(name, args, [], 1, false, false), ctx)
         == FunctionScanFrom(f, i + |InnerCall(m, w)|, FunctionScan(name, args, InnerCall(m, w), 1, false, false), ctx)
  {
    var k := i + |m| + |w| + 4;
    InnerCallText(m, w);
    ScanInnerCallUpToClose(f, i, name, args, m, w, ctx);
    var closed := FunctionScan(name, args, ['$'] + m + ['('] + ['"'] + w + ['"'], 2, false, false);
    CloseInnerCallThen(f, k, closed, FunctionScan(name, args, InnerCall(m, w), 1, false, false), ctx);
  }

  /** Everything of a nested call but its closing ')': the head and the quoted literal. */
  lemma {:induction false} ScanInnerCallUpToClose(f: string, i: nat, name: string, args: seq<Expr>, m: string, w: string, ctx: Context)
    requires IsArgumentText(m) && IsQuotable(w)
    requires i + |InnerCall(m, w)| <= |f| && f[i..i + |InnerCall(m, w)|] == InnerCall(m, w)
    ensures f[i + |m| + |w| + 4] == ')'
    ensures FunctionScanFrom(f, i, FunctionScan(name, args, [], 1, false, false), ctx)
         == FunctionScanFrom(f, i + |m| + |w| + 4, FunctionScan(name, args, ['$'] + m + ['('] + ['"'] + w + ['"'], 2, false, false), ctx)
  {
    InnerCallAt(f, i, m, w);
    ScanInnerCallHead(f, i, name, args, m, ctx);
    ScanNestedLiteral(f, i + |m| + 2, name, args, ['$'] + m + ['('], w, ctx);
  }

  /** Where the head, the quoted literal and the closing ')' of a nested call sit. */
  lemma {:induction false} InnerCallAt(f: string, i: nat, m: string, w: string)
    requires i + |InnerCall(m, w)| <= |f| && f[i..i + |InnerCall(m, w)|] == InnerCall(m, w)
    ensures i + |m| + |w| + 5 <= |f|
    ensures f[i..i + |m| + 2] == ['$'] + m + ['(']
    ensures f[i + |m| + 2..i + |m| + 2 + |w| + 2] == ['"'] + w + ['"']
    ensures f[i + |m| + |w| + 4] == ')'
  {
    var hd := ['$'] + m + ['('];
    var q := ['"'] + w + ['"'];
    assert InnerCall(m, w) == hd + (q + [')']);
    SliceSplit(f, i, hd, q + [')']);
    var j := i + |hd|;
    SliceSplit(f, j, q, [')']);
    var k := j + |w| + 2;
    assert f[k] == f[k..k + 1][0];
  }

  /** A quoted literal one level inside a call is copied whole, quotes included. */
  lemma {:induction false} ScanNestedLiteral(f: string, j: nat, name: string, args: seq<Expr>, hd: string, w: string, ctx: Context)
    requires IsQuotable(w) && |hd| <= j && j + |w| + 2 <= |f| && f[j..j + |w| + 2] == ['"'] + w + ['"']
    ensures FunctionScanFrom(f, j, FunctionScan(name, args, hd, 2, false, false), ctx)
         == FunctionScanFrom(f, j + |w| + 2, FunctionScan(name, args, hd + ['"'] + w + ['"'], 2, false, false), ctx)
  {
    var st := FunctionScan(name, args, hd, 2, false, false);
    QuotedAt(f, j, w);
    ScanOpenQuote(f, j, st, w, ctx);
    CloseQuoteThen(f, j + |w| + 1, FunctionScan(name, args, hd + ['"'] + w, 3, false, true), ctx);
  }

  /** `$n($m("w"))` is a call of `n` whose one argument is the call of `m` with the literal. */
  lemma {:induction false} NestedCall(n: string, m: string, w: string, ctx: Context)
    requires IsPlainName(n) && IsArgumentText(m) && IsQuotable(w)
    ensures ParseFunction(['$'] + n + ['('] + InnerCall(m, w) + [')'], ctx)
         == Ok(FunctionExpr(ctx, n, [FunctionExpr(ctx, m, [StringExpr(w)])]))
  {
    var inner := InnerCall(m, w);
    var f := ['$'] + n + ['('] + inner + [')'];
    assert FunctionScanFrom(f, 0, FunctionScanStart, ctx)
        == FunctionScanFrom(f, |f| - 1, FunctionScan(['$'] + n, [], inner, 1, false, false), ctx) by {
      CallOfOneArgumentAt(n, inner);
      ScanCallHead(f, n, ctx);
      ScanInnerCall(f, |n| + 2, ['$'] + n, [], m, w, ctx);
    }
    assert IsPlainName(m);
    InnerCallParses(m, w, ctx);
    CallOfOneArgumentAt(n, inner);
    CallEndsWithArgument(f, n, inner, FunctionExpr(ctx, m, [StringExpr(w)]), ctx);
  }

  /** `$outer($inner("a,b"))`: the comma inside the quotes splits neither call's arguments. */
  lemma {:induction false} NestedCallWithQuotedComma(ctx: Context)
    ensures ParseFunction("$outer($inner(\"a,b\"))", ctx)
         == Ok(FunctionExpr(ctx, "outer", [FunctionExpr(ctx, "inner", [StringExpr("a,b")])]))
  {
    NestedCallWithQuotedCommaParts();
    NestedCall("outer", "inner", "a,b", ctx);
  }

  lemma NestedCallWithQuotedCommaParts()
    ensures IsPlainName("outer") && IsArgumentText("inner") && IsQuotable("a,b")
    ensures ['$'] + "outer" + ['('] + InnerCall("inner", "a,b") + [')'] == "$outer($inner(\"a,b\"))"
  {
    assert InnerCall("inner", "a,b") == "$inner(\"a,b\")";
  }

  /** The text of a quoted argument `"a\"b"`, as written. */
  function EscapedQuoteArgument(a: string, b: string): string {
    ['"'] + a + ['\\', '"'] + b + ['"']
  }

  /** What the scan keeps of `"a\"b"`: the backslash is gone, the quote it escaped stays. */
  function WithoutBackslash(a: string, b: string): string {
    ['"'] + a + ['"'] + b + ['"']
  }

  lemma {:induction false} EscapeStartAt(f: string, i: nat, a: string)
    requires i + |a| + 2 <= |f| && f[i..i + |a| + 2] == ['"'] + a + ['\\']
    ensures f[i] == '"' && f[i + 1..i + 1 + |a|] == a && f[i + 1 + |a|] == '\\'
  {
    SliceSplit(f, i, ['"'], a + ['\\']);
    SliceSplit(f, i + 1, a, ['\\']);
    assert f[i] == f[i..i + 1][0];
    assert f[i + 1 + |a|] == f[i + 1 + |a|..i + 2 + |a|][0];
  }

  /** The start of `"a\"b"`: the quote, `a`, and the backslash, which sets the escape flag. */
  lemma {:induction false} ScanUpToEscape(f: string, i: nat, name: string, args: seq<Expr>, a: string, ctx: Context)
    requires IsQuotable(a) && i + |a| + 2 <= |f| && f[i..i + |a| + 2] == ['"'] + a + ['\\']
    ensures FunctionScanFrom(f, i, FunctionScan(name, args, [], 1, false, false), ctx)
         == FunctionScanFrom(f, i + |a| + 2, FunctionScan(name, args, ['"'] + a, 2, true, true), ctx)
  {
    EscapeStartAt(f, i, a);
    var st := FunctionScan(name, args, [], 1, false, false);
    ScanOpenQuote(f, i, st, a, ctx);
    var inText := FunctionScan(name, args, ['"'] + a, 2, false, true);
    assert st.(inStr := true, depth := st.depth + 1, token := st.token + ['"'] + a) == inText;
    StartEscapeThen(f, i + 1 + |a|, inText, ctx);
  }

  /** The rest of `"a\"b"`: the escaped quote is copied, then `b` and the closing quote. */
  lemma {:induction false} ScanAfterEscape(f: string, i: nat, name: string, args: seq<Expr>, tok: string, b: string, ctx: Context)
    requires IsQuotable(b) && |tok| + 1 <= i && i + |b| + 2 <= |f| && f[i..i + |b| + 2] == ['"'] + b + ['"']
    ensures FunctionScanFrom(f, i, FunctionScan(name, args, tok, 2, true, true), ctx)
         == FunctionScanFrom(f, i + |b| + 2, FunctionScan(name, args, tok + ['"'] + b + ['"'], 1, false, false), ctx)
  {
    ScanEscapedQuote(f, i, name, args, tok, b, ctx);
    var inText := FunctionScan(name, args, tok + ['"'] + b, 2, false, true);
    assert i + 1 + |b| + 1 == i + |b| + 2;
    CloseQuoteThen(f, i + 1 + |b|, inText, ctx);
    assert inText.(inStr := false, depth := inText.depth - 1, token := inText.token + ['"'])
        == FunctionScan(name, args, tok + ['"'] + b + ['"'], 1, false, false);
  }

  /** The quote after a backslash is copied and does not end the string; `b` follows it. */
  lemma {:induction false} ScanEscapedQuote(f: string, i: nat, name: string, args: seq<Expr>, tok: string, b: string, ctx: Context)
    requires IsQuotable(b) && |tok| + 1 <= i && i + |b| + 2 <= |f| && f[i..i + |b| + 2] == ['"'] + b + ['"']
    ensures f[i + 1 + |b|] == '"'
    ensures FunctionScanFrom(f, i, FunctionScan(name, args, tok, 2, true, true), ctx)
         == FunctionScanFrom(f, i + 1 + |b|, FunctionScan(name, args, tok + ['"'] + b, 2, false, true), ctx)
  {
    QuotedAt(f, i, b);
    var st := FunctionScan(name, args, tok, 2, true, true);
    var copied := FunctionScan(name, args, tok + ['"'], 2, false, true);
    EscapedThen(f, i, st, copied, ctx);
    ScanQuotedText(f, i + 1, copied, b, ctx);
  }

  /** What is left of `"a\"b"` is the literal `a` followed by further text, so it reads as `a`. */
  lemma {:induction false} WithoutBackslashParses(a: string, b: string, ctx: Context)
    requires IsQuotable(a)
    ensures !IsBlank(WithoutBackslash(a, b)) && Parse(WithoutBackslash(a, b), ObjectClass, ctx) == Ok(StringExpr(a))
  {
    var t := WithoutBackslash(a, b);
    EscapeOfQuotable(a);
    assert t == Quote(a) + (b + ['"']);
    ParseStringOfQuote(a, b + ['"']);
    assert t[0] == '"' && t[|t| - 1] == '"';
    TrimOfTrimmed(t);
    ParseQuotedText(t, ObjectClass, ctx);
  }

  /**
   * `$n("a\"b")` calls `n` with the literal `a`: `parseFunction` consumes the backslash itself,
   * so the argument text handed to `parseString` is `"a"b"`, whose string ends at the second quote.
   */
  lemma {:induction false} EscapeInArgumentIsConsumed(n: string, a: string, b: string, ctx: Context)
    requires IsPlainName(n) && IsQuotable(a) && IsQuotable(b)
    ensures ParseFunction(['$'] + n + ['('] + EscapedQuoteArgument(a, b) + [')'], ctx)
         == Ok(FunctionExpr(ctx, n, [StringExpr(a)]))
  {
    var t := EscapedQuoteArgument(a, b);
    var f := ['$'] + n + ['('] + t + [')'];
    assert FunctionScanFrom(f, 0, FunctionScanStart, ctx)
        == FunctionScanFrom(f, |f| - 1, FunctionScan(['$'] + n, [], WithoutBackslash(a, b), 1, false, false), ctx) by {
      CallOfOneArgumentAt(n, t);
      ScanCallHead(f, n, ctx);
      ScanEscapedArgument(f, |n| + 2, ['$'] + n, [], a, b, ctx);
    }
    WithoutBackslashParses(a, b, ctx);
    CallOfOneArgumentAt(n, t);
    CallEndsWithArgument(f, n, WithoutBackslash(a, b), StringExpr(a), ctx);
  }

  /** Inside a call, `"a\"b"` leaves `"a"b"` pending: the backslash is dropped, the quote kept. */
  lemma {:induction false} ScanEscapedArgument(f: string, i: nat, name: string, args: seq<Expr>, a: string, b: string, ctx: Context)
    requires IsQuotable(a) && IsQuotable(b)
    requires i + |EscapedQuoteArgument(a, b)| <= |f| && f[i..i + |EscapedQuoteArgument(a, b)|] == EscapedQuoteArgument(a, b)
    ensures FunctionScanFrom(f, i, FunctionScan(name, args, [], 1, false, false), ctx)
         == FunctionScanFrom(f, i + |EscapedQuoteArgument(a, b)|, FunctionScan(name, args, WithoutBackslash(a, b), 1, false, false), ctx)
  {
    var p1 := ['"'] + a + ['\\'];
    var p2 := ['"'] + b + ['"'];
    assert EscapedQuoteArgument(a, b) == p1 + p2;
    SliceSplit(f, i, p1, p2);
    var j := i + |a| + 2;
    assert |p1| == |a| + 2 && |p2| == |b| + 2;
    assert f[i..i + |a| + 2] == p1 && f[j..j + |b| + 2] == p2;
    ScanUpToEscape(f, i, name, args, a, ctx);
    assert j + |b| + 2 == i + |EscapedQuoteArgument(a, b)|;
    ScanAfterEscape(f, j, name, args, ['"'] + a, b, ctx);
  }

  lemma {:induction false} EscapeAppend(x: string, y: string)
    ensures Escape(x + y) == Escape(x) + Escape(y)
    decreases |x|
  {
    if x == [] {
      assert x + y == y;
    } else {
      assert (x + y)[0] == x[0] && (x + y)[1..] == x[1..] + y;
      EscapeAppend(x[1..], y);
    }
  }

  /** Read by `parseString` alone, the same literal keeps the escaped quote. */
  lemma {:induction false} EscapedQuoteInLiteral(a: string, b: string)
    requires IsQuotable(a) && IsQuotable(b)
    ensures ParseString(EscapedQuoteArgument(a, b)) == Ok(StringExpr(a + ['"'] + b))
  {
    var x := a + ['"'] + b;
    assert Escape(x) == a + ['\\', '"'] + b by {
      EscapeOfQuotable(a);
      EscapeOfQuotable(b);
      assert x == a + (['"'] + b);
      EscapeAppend(a, ['"'] + b);
      EscapeAppend(['"'], b);
      assert Escape(['"']) == ['\\', '"'];
    }
    ParseStringOfQuote(x, []);
    assert Quote(x) + [] == EscapedQuoteArgument(a, b);
  }

}
