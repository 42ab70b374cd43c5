# doclerk, modelled in Dafny

doclerk turns a YAML test plan into documents. A command-line run reads an execution plan; each
execution chains modules, and each module receives the document root built so far and returns a
new root, which is composed onto the previous one. This project models the core of that pipeline:

- the expression language: variable references `&name`, macro calls `$name(args)`, quoted string
  literals, and templates that mix literal text with references (`ExpressionParser`,
  `TemplateStringExpression`, `FunctionExpression`, `MapContext`);
- the test-plan input module's root (`TestPlanYamlDocRoot`): properties, macros read from macro
  folders, sections, the root expression context and macro invocation;
- scenarios, inline steps and step references (`TestPlanYamlScenario`, `TestPlanYamlStep`,
  `TestPlanStepReference`);
- document roots: the blank root and the compound root with its merge policy (`BlankDocRoot`,
  `CompoundDocRoot`);
- module configuration layering (`HierarchicalModuleContext`, `AbstractModule.withContext`);
- the command line: the execution plan reader (`YamlExecutionPlan`), `Doclerk.call` and the exit
  decision of `Doclerk.main`.

Java `null` is `Option.None`; a thrown exception is `Result.Err(Error(kind, message))`, with one
error kind per exception class. Evaluation takes a `fuel` argument: a variable dereference or a
macro call spends one unit, and running out is the `OutOfFuel` kind. It stands for the
`StackOverflowError` of an endless macro recursion. That error is not an `Exception`, so neither
the template's `catch (Exception)` nor the one in `call` catches it (`Base.IsException`).

Modules, one per file:

| module | file | models |
|---|---|---|
| Base | base.dfy | Option, Result, error kinds, Java string helpers, `LinkedHashSet` order (`Dedup`) |
| Contexts | context.dfy | expressions (as values), `MapContext` lookups |
| Parser, ParserProperties | parser.dfy, parser_props.dfy | `ExpressionParser` |
| Template, TemplateProperties | template.dfy, template_props.dfy | `TemplateStringExpression.parseYmlString` |
| Evaluation, EvaluationProperties | eval.dfy, eval_props.dfy | evaluation, macro call, concatenation |
| TestPlan, TestPlanProperties | testplan.dfy, testplan_props.dfy | step references, steps (a class), scenarios |
| TestPlanRoots | plan_root.dfy | `TestPlanYamlDocRoot` |
| DocRoots, DocRootProperties | docroot.dfy, docroot_props.dfy | `BlankDocRoot`, `CompoundDocRoot` |
| ModuleContexts | modules.dfy | `HierarchicalModuleContext`, `AbstractModule` (a class) |
| ExecutionPlans, ExecutionPlanProperties | execution_plan.dfy, execution_plan_props.dfy | `YamlExecutionPlan` |
| Cli, CliProperties | cli.dfy, cli_props.dfy | `Doclerk.call`, `Doclerk.main` |

Loops in the source are methods with loop invariants, proved equal to a specification function
(`ParseStringLoop`, `ParseFunctionLoop`, `ParseTemplateLoop`, `EvaluateConcat`, `BindParamsLoop`,
`ReadMacros`, the `CompoundDocRoot` getters, `NewCompound`, the plan reader and `Cli.Call`). The
properties are then proved about those functions. Objects whose fields the source overwrites are
classes: `TestPlanYamlStep`, whose setters replace its five optional fields, and `Module`, whose
`WithContext` replaces its context. `Cli.Call` runs over a map from module names to `Module`
objects and states the contexts those objects hold afterwards.

## Model

| member | source | states |
|---|---|---|
| Base.TrimStart | doclerk-core/src/main/java/io/github/doclerk/core/expression/ExpressionParser.java:35 | no longer than the input, every dropped leading character is at most a space, and a non-empty result starts with a character above space |
| Base.TrimStartIsSuffix | doclerk-core/src/main/java/io/github/doclerk/core/expression/ExpressionParser.java:35 | what the leading trim keeps is the end of the input |
| Base.TrimEnd | doclerk-core/src/main/java/io/github/doclerk/core/expression/ExpressionParser.java:35 | no longer than the input, keeps the first character, every dropped trailing character is at most a space, and a non-empty result ends with a character above space |
| Base.TrimEndIsPrefix | doclerk-core/src/main/java/io/github/doclerk/core/expression/ExpressionParser.java:35 | what the trailing trim keeps is the start of the input |
| Base.Trim | doclerk-core/src/main/java/io/github/doclerk/core/expression/ExpressionParser.java:35 | `String.trim`: no longer than the input, and a non-empty result starts and ends with characters above space |
| Base.TrimIsSlice | doclerk-core/src/main/java/io/github/doclerk/core/expression/ExpressionParser.java:35 | `String.trim` returns a slice `s[i..j]` of its input, and every character before `i` or from `j` on is at most a space |
| Base.TrimStartOfBlank | doclerk-core/src/main/java/io/github/doclerk/core/expression/ExpressionParser.java:36 | a string made only of characters at most a space trims to empty |
| Base.BlankIffAllTrimmed | doclerk-core/src/main/java/io/github/doclerk/core/expression/ExpressionParser.java:36 | `trim().isEmpty()` holds exactly when every character is at most a space |
| Base.TrimOfTrimmed | doclerk-core/src/main/java/io/github/doclerk/core/expression/ExpressionParser.java:35 | trimming a string whose ends are above space leaves it unchanged |
| Base.NatToString | doclerk-cli/src/main/java/io/github/doclerk/cli/YamlExecutionPlan.java:58 | `Integer.toString` of a natural number: non-empty decimal digits whose value is the number, with no leading zero |
| Base.IntToString | doclerk-cli/src/main/java/io/github/doclerk/cli/Doclerk.java:87 | `Integer.toString` of an integer: starts with '-' exactly when the number is negative, and the digits after the sign (or the whole text) have the number's absolute value |
| Base.Dedup | doclerk-cli/src/main/java/io/github/doclerk/cli/Doclerk.java:134-138 | insertion-ordered set: the result has exactly the elements of the input and none twice |
| Base.DedupHead | doclerk-cli/src/main/java/io/github/doclerk/cli/Doclerk.java:134-138 | the first element of the input stays first |
| Base.DedupOfDistinct | doclerk-cli/src/main/java/io/github/doclerk/cli/Doclerk.java:135 | a sequence without repetitions is kept unchanged, as `new LinkedHashSet<>(a)` keeps a set |
| Base.DedupExtends | doclerk-cli/src/main/java/io/github/doclerk/cli/Doclerk.java:135-136 | adding elements after a sequence keeps the deduplicated sequence as a prefix (`addAll` appends) |
| Contexts.GetVar | doclerk-core/src/main/java/io/github/doclerk/core/expression/MapContext.java:36-50 | a failed variable lookup is a plain DoclerkException "undefined var: key" |
| Contexts.GetFunction | doclerk-core/src/main/java/io/github/doclerk/core/expression/MapContext.java:53-63 | a failed function lookup is an UndefinedFunctionException whose message carries the prefix twice; a found macro comes with the context that holds it |
| Contexts.Chain | doclerk-core/src/main/java/io/github/doclerk/core/expression/MapContext.java:45-46 | the chain of a context starts with the context and consists of map contexts only |
| Contexts.FirstVarLayer | doclerk-core/src/main/java/io/github/doclerk/core/expression/MapContext.java:37-47 | the index of the first layer defining the key, with no earlier layer defining it, or no layer at all |
| Contexts.FirstFunctionLayer | doclerk-core/src/main/java/io/github/doclerk/core/expression/MapContext.java:54-60 | the index of the first layer defining the function, with no earlier layer defining it, or no layer at all |
| Contexts.GetVarIsNearestBinding | doclerk-core/src/main/java/io/github/doclerk/core/expression/MapContext.java:36-50 | `getVar` answers from the nearest layer of the parent chain that defines the key, and fails with "undefined var: key" when none does |
| Contexts.GetFunctionIsNearestBinding | doclerk-core/src/main/java/io/github/doclerk/core/expression/MapContext.java:53-63 | `getFunction` answers from the nearest layer defining the name, with that layer as the macro's home, and fails undefined otherwise |
| Contexts.LocalVarShadowsParent | doclerk-core/src/main/java/io/github/doclerk/core/expression/MapContext.java:37-41 | a local variable is returned without consulting the parent |
| Contexts.MissingVarDefersToParent | doclerk-core/src/main/java/io/github/doclerk/core/expression/MapContext.java:45-46 | a key missing locally (or a null variable map) is answered by the parent |
| Contexts.LocalFunctionShadowsParent | doclerk-core/src/main/java/io/github/doclerk/core/expression/MapContext.java:54-57 | a local macro is returned without consulting the parent |
| Contexts.MissingFunctionDefersToParent | doclerk-core/src/main/java/io/github/doclerk/core/expression/MapContext.java:58-59 | a name missing locally (or a null function map) is answered by the parent |
| Contexts.NameSpacesAreIndependent | doclerk-core/src/main/java/io/github/doclerk/core/expression/MapContext.java:36-63 | variable lookups ignore the function maps and function lookups ignore the variable maps |
| Contexts.MissingVarIsPlainFailure | doclerk-core/src/main/java/io/github/doclerk/core/expression/MapContext.java:47-48 | with no parent, a missing variable is a plain DoclerkException with message "undefined var: key" |
| Contexts.MissingFunctionMessage | doclerk-core/src/main/java/io/github/doclerk/core/expression/MapContext.java:60-61 | with no parent, a missing function fails with "Undefined function: Undefined function: name" |
| Parser.ParseStringLoop | doclerk-core/src/main/java/io/github/doclerk/core/expression/ExpressionParser.java:123-155 | the `parseString` loop computes the scan function `ParseString` |
| Parser.ParseExpression | doclerk-core/src/main/java/io/github/doclerk/core/expression/ExpressionParser.java:31-34 | a null expression is a NullExpression |
| Parser.ParseFunctionLoop | doclerk-core/src/main/java/io/github/doclerk/core/expression/ExpressionParser.java:50-121 | the `parseFunction` loop computes the scan function `ParseFunction` |
| ParserProperties.BlankParsesToLiteral | doclerk-core/src/main/java/io/github/doclerk/core/expression/ExpressionParser.java:36-37 | an empty or blank expression is the untrimmed string literal when a String is acceptable, and a syntax error naming the expected class otherwise |
| ParserProperties.UnknownShapeIsSyntaxError | doclerk-core/src/main/java/io/github/doclerk/core/expression/ExpressionParser.java:45-46 | an expression starting with none of `"`, `&`, `$` is an InvalidSyntaxException "failed to parse expression: …" |
| ParserProperties.VariableTakesWholeRemainder | doclerk-core/src/main/java/io/github/doclerk/core/expression/ExpressionParser.java:41-42 | `&…` is a variable named by the whole rest of the trimmed text, in the parser's context |
| ParserProperties.QuotedMismatchIsSyntaxError | doclerk-core/src/main/java/io/github/doclerk/core/expression/ExpressionParser.java:39-40 | a quoted literal where a String is not acceptable is a syntax error on the trimmed text |
| ParserProperties.ScanEscaped | doclerk-core/src/main/java/io/github/doclerk/core/expression/ExpressionParser.java:127-149 | inside quotes, escaped text followed by a closing quote yields exactly the unescaped text |
| ParserProperties.ScanEscapedUnclosed | doclerk-core/src/main/java/io/github/doclerk/core/expression/ExpressionParser.java:127-155 | escaped text with no closing quote is "not a valid string expression" |
| ParserProperties.ParseStringOfQuote | doclerk-core/src/main/java/io/github/doclerk/core/expression/ExpressionParser.java:123-155 | round trip: `parseString` of a quoted, escaped text returns the text, whatever follows the closing quote |
| ParserProperties.UnclosedStringIsSyntaxError | doclerk-core/src/main/java/io/github/doclerk/core/expression/ExpressionParser.java:155 | an opening quote without a closing one is an InvalidSyntaxException on the whole input |
| ParserProperties.ParseQuotedText | doclerk-core/src/main/java/io/github/doclerk/core/expression/ExpressionParser.java:39-40 | a trimmed text starting with a quote is parsed by `parseString` when a String is acceptable |
| ParserProperties.ParseQuotedLiteral | doclerk-core/src/main/java/io/github/doclerk/core/expression/ExpressionParser.java:31-48 | round trip through `parseExpression`: a quoted, escaped text parses to the string literal of the text |
| ParserProperties.StepThen | doclerk-core/src/main/java/io/github/doclerk/core/expression/ExpressionParser.java:57-119 | the function scan continues from the state one step produces |
| ParserProperties.StepCopies | doclerk-core/src/main/java/io/github/doclerk/core/expression/ExpressionParser.java:116-117 | an ordinary character is appended to the token |
| ParserProperties.StepOpensQuote | doclerk-core/src/main/java/io/github/doclerk/core/expression/ExpressionParser.java:68-77 | an opening quote enters a string, raises the depth and is kept in the token |
| ParserProperties.StepClosesQuote | doclerk-core/src/main/java/io/github/doclerk/core/expression/ExpressionParser.java:68-77 | a closing quote leaves the string, lowers the depth and is kept in the token |
| ParserProperties.StepOpensCall | doclerk-core/src/main/java/io/github/doclerk/core/expression/ExpressionParser.java:78-88 | `(` at depth 0 takes the token as the function name, clears it and enters depth 1 |
| ParserProperties.StepEndsArgument | doclerk-core/src/main/java/io/github/doclerk/core/expression/ExpressionParser.java:89-98 | `)` returning to depth 0 parses a non-blank token as the last argument |
| ParserProperties.StepClosesCall | doclerk-core/src/main/java/io/github/doclerk/core/expression/ExpressionParser.java:89-98 | `)` returning to depth 0 with a blank token adds no argument |
| ParserProperties.StepSplitsArgument | doclerk-core/src/main/java/io/github/doclerk/core/expression/ExpressionParser.java:103-108 | `,` at depth 1 parses a non-blank token as the next argument |
| ParserProperties.StepRejectsEmptyArgument | doclerk-core/src/main/java/io/github/doclerk/core/expression/ExpressionParser.java:109-110 | `,` at depth 1 after a blank token is "Unexpected token ',' encountered" |
| ParserProperties.ScanPlainText | doclerk-core/src/main/java/io/github/doclerk/core/expression/ExpressionParser.java:116-117 | a run of plain name characters outside any call is appended to the token |
| ParserProperties.ScanQuotedText | doclerk-core/src/main/java/io/github/doclerk/core/expression/ExpressionParser.java:116-117 | a run of text without quote or backslash inside a nested string is appended to the token |
| ParserProperties.QuotedArgumentParses | doclerk-core/src/main/java/io/github/doclerk/core/expression/ExpressionParser.java:123-155 | a quoted argument token parses to its literal |
| ParserProperties.EscapeOfQuotable | doclerk-core/src/main/java/io/github/doclerk/core/expression/ExpressionParser.java:140-142 | a word without quote or backslash needs no escaping |
| ParserProperties.ScanQuotedArgument | doclerk-core/src/main/java/io/github/doclerk/core/expression/ExpressionParser.java:68-77 | a quoted word at depth 1 is read into the token with its quotes |
| ParserProperties.QuotedListHead | doclerk-core/src/main/java/io/github/doclerk/core/expression/ExpressionParser.java:103-115 | a comma-separated quoted list starts with its first word quoted, followed by a comma and the rest |
| ParserProperties.ScanListItem | doclerk-core/src/main/java/io/github/doclerk/core/expression/ExpressionParser.java:89-108 | a quoted word followed by `,` or `)` becomes the next argument, and `)` closes the call |
| ParserProperties.ScanQuotedList | doclerk-core/src/main/java/io/github/doclerk/core/expression/ExpressionParser.java:57-119 | a closed, comma-separated list of quoted words becomes one literal argument per word, in order |
| ParserProperties.ScanSigilAndName | doclerk-core/src/main/java/io/github/doclerk/core/expression/ExpressionParser.java:116-117 | `$name` is read into the token |
| ParserProperties.ScanCallHead | doclerk-core/src/main/java/io/github/doclerk/core/expression/ExpressionParser.java:78-88 | `$name(` sets the name and enters depth 1 |
| ParserProperties.CallWithoutArguments | doclerk-core/src/main/java/io/github/doclerk/core/expression/ExpressionParser.java:50-121 | `$name()` is a call of `name` without arguments in the parser's context |
| ParserProperties.CallWithoutParenthesis | doclerk-core/src/main/java/io/github/doclerk/core/expression/ExpressionParser.java:120 | `$name` without a parenthesis fails at `name.substring(1)` on the empty name |
| ParserProperties.LeadingCommaIsSyntaxError | doclerk-core/src/main/java/io/github/doclerk/core/expression/ExpressionParser.java:103-111 | `$name(,…` is "Unexpected token ',' encountered", whatever follows |
| ParserProperties.CallWithQuotedArguments | doclerk-core/src/main/java/io/github/doclerk/core/expression/ExpressionParser.java:50-121 | `$name("a","b",…)` is a call of `name` with the literal arguments in order |
| ParserProperties.StepStartsEscape | doclerk-core/src/main/java/io/github/doclerk/core/expression/ExpressionParser.java:59-67 | outside an escape, a backslash changes only the escape flag: it is not kept in the token |
| ParserProperties.StepCopiesEscaped | doclerk-core/src/main/java/io/github/doclerk/core/expression/ExpressionParser.java:59-63 | the character after a backslash is appended to the token whatever it is, nothing else changes, and the escape ends |
| ParserProperties.StepOpensInnerCall | doclerk-core/src/main/java/io/github/doclerk/core/expression/ExpressionParser.java:78-88 | inside a call and outside quotes, `(` is kept in the token and opens one more level |
| ParserProperties.StepClosesInnerCall | doclerk-core/src/main/java/io/github/doclerk/core/expression/ExpressionParser.java:89-102 | inside a nested call and outside quotes, `)` is kept in the token and closes one level |
| ParserProperties.ScanArgumentText | doclerk-core/src/main/java/io/github/doclerk/core/expression/ExpressionParser.java:116-117 | text without structural characters or commas, between the arguments of a call, is appended to the pending token |
| ParserProperties.VariableArgumentParses | doclerk-core/src/main/java/io/github/doclerk/core/expression/ExpressionParser.java:41-42 | an argument token `&x` parses, with Object expected, to the variable `x` |
| ParserProperties.VariableArgument | doclerk-core/src/main/java/io/github/doclerk/core/expression/ExpressionParser.java:89-98 | `$n(&x)` is a call of `n` with the one argument variable `x` |
| ParserProperties.CallEndsWithArgument | doclerk-core/src/main/java/io/github/doclerk/core/expression/ExpressionParser.java:93-98 | a call whose scan leaves a non-blank argument token pending at the closing `)` is the call of that one parsed argument |
| ParserProperties.TrailingBlankArgumentDropped | doclerk-core/src/main/java/io/github/doclerk/core/expression/ExpressionParser.java:93-98 | `$n("w", )`: the blank token before the closing `)` is dropped, so the call has the one argument `w`, not an error |
| ParserProperties.InnerCallParses | doclerk-core/src/main/java/io/github/doclerk/core/expression/ExpressionParser.java:96 | a nested call text `$m("w")` re-parsed as an argument, with Object expected, is the call of `m` with the literal `w` |
| ParserProperties.ScanInnerCall | doclerk-core/src/main/java/io/github/doclerk/core/expression/ExpressionParser.java:78-102 | a nested call `$m("w")` inside a call is copied whole into the pending token and the scan comes back to depth 1 |
| ParserProperties.NestedCall | doclerk-core/src/main/java/io/github/doclerk/core/expression/ExpressionParser.java:89-98 | `$n($m("w"))` is a call of `n` whose one argument is the call of `m` with the literal `w` |
| ParserProperties.NestedCallWithQuotedComma | doclerk-core/src/main/java/io/github/doclerk/core/expression/ExpressionParser.java:68-115 | `$outer($inner("a,b"))` is `outer` called with `inner` of the literal `a,b`: the comma inside the quotes splits neither call |
| ParserProperties.ScanEscapedArgument | doclerk-core/src/main/java/io/github/doclerk/core/expression/ExpressionParser.java:59-77 | inside a call, `"a\"b"` leaves `"a"b"` pending: the backslash is dropped and the quote it escapes kept |
| ParserProperties.WithoutBackslashParses | doclerk-core/src/main/java/io/github/doclerk/core/expression/ExpressionParser.java:143-148 | `"a"b"` parses, with Object expected, to the literal `a`: `parseString` stops at the second quote |
| ParserProperties.EscapeInArgumentIsConsumed | doclerk-core/src/main/java/io/github/doclerk/core/expression/ExpressionParser.java:59-67 | the function scan consumes the backslash before the argument is re-parsed, so `$n("a\"b")` has the argument `a`, not `a"b` |
| ParserProperties.EscapedQuoteInLiteral | doclerk-core/src/main/java/io/github/doclerk/core/expression/ExpressionParser.java:129-142 | parsed by `parseString` alone, `"a\"b"` keeps the escaped quote and is the literal `a"b` |
| Template.TemplateFinish | doclerk-core/src/main/java/io/github/doclerk/core/expression/TemplateStringExpression.java:102-109 | the pending token is appended as a variable when the text ended inside one and as a literal otherwise; a single segment is returned unwrapped, more than one as their concatenation; the only failure is the pending variable failing to parse, with its error |
| Template.ParseTemplateLoop | doclerk-core/src/main/java/io/github/doclerk/core/expression/TemplateStringExpression.java:40-110 | the `parseYmlString` loop computes the scan function `ParseTemplate` |
| TemplateProperties.FlattenAppend | doclerk-core/src/main/java/io/github/doclerk/core/expression/TemplateStringExpression.java:40-110 | the text of pieces is the texts of the pieces in order |
| TemplateProperties.StepForm | doclerk-core/src/main/java/io/github/doclerk/core/expression/TemplateStringExpression.java:46-100 | one character either extends the token, or closes a piece and starts a new token with the character, or closes a piece that ends with it |
| TemplateProperties.StepKeepsText | doclerk-core/src/main/java/io/github/doclerk/core/expression/TemplateStringExpression.java:46-100 | one step keeps "pieces so far followed by the token" equal to the input read so far |
| TemplateProperties.ScanKeepsText | doclerk-core/src/main/java/io/github/doclerk/core/expression/TemplateStringExpression.java:46-101 | the whole scan keeps that invariant to the end of the input |
| TemplateProperties.PiecesAreLossless | doclerk-core/src/main/java/io/github/doclerk/core/expression/TemplateStringExpression.java:40-110 | the pieces of a template spell the template exactly: nothing is lost or duplicated |
| TemplateProperties.StepKeepsShape | doclerk-core/src/main/java/io/github/doclerk/core/expression/TemplateStringExpression.java:46-100 | one step keeps every completed piece well-shaped: plain literals without sigils, `&` variables, `$…)` calls |
| TemplateProperties.ScanKeepsShape | doclerk-core/src/main/java/io/github/doclerk/core/expression/TemplateStringExpression.java:46-101 | the whole scan keeps the shapes |
| TemplateProperties.PiecesShape | doclerk-core/src/main/java/io/github/doclerk/core/expression/TemplateStringExpression.java:102-107 | all pieces but the last are well-shaped, and the last is a variable or a literal (possibly an unterminated call) |
| TemplateProperties.CompilePieces | doclerk-core/src/main/java/io/github/doclerk/core/expression/TemplateStringExpression.java:54-106 | compiling pieces yields one expression per piece |
| TemplateProperties.CompilePiecesAppend | doclerk-core/src/main/java/io/github/doclerk/core/expression/TemplateStringExpression.java:54-106 | compiling one more piece appends its expression or fails |
| TemplateProperties.CompilePiecesFailsEarly | doclerk-core/src/main/java/io/github/doclerk/core/expression/TemplateStringExpression.java:72-95 | a failing piece makes the whole compilation fail with its error |
| TemplateProperties.StepAgrees | doclerk-core/src/main/java/io/github/doclerk/core/expression/TemplateStringExpression.java:46-100 | the parsing scan and the piece scan agree step by step, and a parse failure is the failure of compiling a piece |
| TemplateProperties.ScanExtendsPieces | doclerk-core/src/main/java/io/github/doclerk/core/expression/TemplateStringExpression.java:46-101 | the piece scan only appends pieces |
| TemplateProperties.ScanAgrees | doclerk-core/src/main/java/io/github/doclerk/core/expression/TemplateStringExpression.java:46-101 | the two scans agree on the whole input |
| TemplateProperties.ParseTemplateIsCompiledPieces | doclerk-core/src/main/java/io/github/doclerk/core/expression/TemplateStringExpression.java:40-110 | parsing a template is compiling its pieces, unwrapped when there is one |
| TemplateProperties.VarPieceCompiles | doclerk-core/src/main/java/io/github/doclerk/core/expression/TemplateStringExpression.java:83 | a variable piece compiles to the variable named after `&` |
| TemplateProperties.CallPieceCompiles | doclerk-core/src/main/java/io/github/doclerk/core/expression/TemplateStringExpression.java:72 | a call piece is parsed as a function call |
| TemplateProperties.ScanPlainSpan | doclerk-core/src/main/java/io/github/doclerk/core/expression/TemplateStringExpression.java:93-99 | plain text outside references extends the token |
| TemplateProperties.ScanVarSpan | doclerk-core/src/main/java/io/github/doclerk/core/expression/TemplateStringExpression.java:93-99 | letters, digits, `$` and parentheses extend a variable reference |
| TemplateProperties.ScanCallNameSpan | doclerk-core/src/main/java/io/github/doclerk/core/expression/TemplateStringExpression.java:50-60 | characters other than parentheses extend a call |
| TemplateProperties.ScanUnclosedCall | doclerk-core/src/main/java/io/github/doclerk/core/expression/TemplateStringExpression.java:67-77 | a call never closed stays in the token to the end |
| TemplateProperties.AssembleOne | doclerk-core/src/main/java/io/github/doclerk/core/expression/TemplateStringExpression.java:109 | one segment is returned unwrapped |
| TemplateProperties.AssembleTwo | doclerk-core/src/main/java/io/github/doclerk/core/expression/TemplateStringExpression.java:109 | two segments are concatenated in order |
| TemplateProperties.AssembleThree | doclerk-core/src/main/java/io/github/doclerk/core/expression/TemplateStringExpression.java:109 | three segments are concatenated in order |
| TemplateProperties.PiecesOfPlainText | doclerk-core/src/main/java/io/github/doclerk/core/expression/TemplateStringExpression.java:93-106 | text without sigils is one literal piece |
| TemplateProperties.LiteralTemplate | doclerk-core/src/main/java/io/github/doclerk/core/expression/TemplateStringExpression.java:40-110 | text without `$` or `&` parses to its own string literal |
| TemplateProperties.PiecesOfVariable | doclerk-core/src/main/java/io/github/doclerk/core/expression/TemplateStringExpression.java:78-104 | `&x` is one variable piece |
| TemplateProperties.VariableTemplate | doclerk-core/src/main/java/io/github/doclerk/core/expression/TemplateStringExpression.java:40-110 | `&x` parses to the variable `x` |
| TemplateProperties.PiecesOfVariableBetweenLiterals | doclerk-core/src/main/java/io/github/doclerk/core/expression/TemplateStringExpression.java:78-106 | `p&xq` is literal, variable, literal when `q` starts with a character that ends a name |
| TemplateProperties.VariableBetweenLiterals | doclerk-core/src/main/java/io/github/doclerk/core/expression/TemplateStringExpression.java:40-110 | `p&xq` parses to the concatenation of `p`, the variable `x` and `q`, with the terminating character kept in `q` |
| TemplateProperties.PiecesOfAdjacentVariables | doclerk-core/src/main/java/io/github/doclerk/core/expression/TemplateStringExpression.java:78-92 | `&x&y` is two variable pieces |
| TemplateProperties.AdjacentVariables | doclerk-core/src/main/java/io/github/doclerk/core/expression/TemplateStringExpression.java:40-110 | `&x&y` parses to the concatenation of the two variables |
| TemplateProperties.PiecesOfCall | doclerk-core/src/main/java/io/github/doclerk/core/expression/TemplateStringExpression.java:50-77 | `$n()` is a call piece followed by an empty literal |
| TemplateProperties.CallTemplate | doclerk-core/src/main/java/io/github/doclerk/core/expression/TemplateStringExpression.java:40-110 | `$n()` parses to the call followed by an empty string literal |
| TemplateProperties.PiecesOfUnterminatedCall | doclerk-core/src/main/java/io/github/doclerk/core/expression/TemplateStringExpression.java:102-106 | a `$` never closed by `)` ends as a literal piece |
| TemplateProperties.UnterminatedCallIsLiteral | doclerk-core/src/main/java/io/github/doclerk/core/expression/TemplateStringExpression.java:40-110 | text ending in an unterminated call parses to literals |
| Evaluation.Bindings | modules/mod-in-testplan/src/main/java/io/github/doclerk/mod/testplan/TestPlanYamlDocRoot.java:152-158 | the parameter map binds exactly the first `|args|` argument names |
| Evaluation.BindParamsLoop | modules/mod-in-testplan/src/main/java/io/github/doclerk/mod/testplan/TestPlanYamlDocRoot.java:151-159 | the parameter loop computes `BindParams`: no names bind nothing, more arguments than names fail at `argNames.get` |
| Evaluation.SegmentsFailEarly | doclerk-core/src/main/java/io/github/doclerk/core/expression/TemplateStringExpression.java:123-131 | once a segment's failure propagates, the concatenation fails with it |
| Evaluation.EvaluateConcat | doclerk-core/src/main/java/io/github/doclerk/core/expression/TemplateStringExpression.java:121-133 | the `ConcatStrExpression.evaluate` loop computes the segment fold |
| EvaluationProperties.JoinSnoc | doclerk-core/src/main/java/io/github/doclerk/core/expression/TemplateStringExpression.java:130 | appending a part to the builder appends its text |
| EvaluationProperties.SegmentsFailOnlyOutOfFuel | doclerk-core/src/main/java/io/github/doclerk/core/expression/TemplateStringExpression.java:125-129 | the concatenation loop can only fail by running out of fuel |
| EvaluationProperties.ConcatFailsOnlyOutOfFuel | doclerk-core/src/main/java/io/github/doclerk/core/expression/TemplateStringExpression.java:121-133 | a concatenation yields a non-null string, or fails only by running out of fuel |
| EvaluationProperties.SegmentsAreInOrder | doclerk-core/src/main/java/io/github/doclerk/core/expression/TemplateStringExpression.java:123-131 | the loop joins the parts of the segments in order |
| EvaluationProperties.ConcatIsInOrder | doclerk-core/src/main/java/io/github/doclerk/core/expression/TemplateStringExpression.java:121-133 | a concatenation evaluates to the parts of its segments joined in order |
| EvaluationProperties.FailingSegmentContributesMessage | doclerk-core/src/main/java/io/github/doclerk/core/expression/TemplateStringExpression.java:125-129 | a segment that throws contributes its exception's message in place |
| EvaluationProperties.LiteralTemplateEvaluatesToItself | doclerk-core/src/main/java/io/github/doclerk/core/expression/TemplateStringExpression.java:29-38 | a template without sigils evaluates to itself |
| EvaluationProperties.UndefinedCallRendersMessage | doclerk-core/src/main/java/io/github/doclerk/core/expression/TemplateStringExpression.java:29-38 | a template calling an undefined macro renders the lookup's message instead of failing |
| EvaluationProperties.UndefinedCallSegment | doclerk-core/src/main/java/io/github/doclerk/core/expression/TemplateStringExpression.java:125-129 | the failing call segment contributes that message |
| EvaluationProperties.UndefinedCallFails | doclerk-core/src/main/java/io/github/doclerk/core/expression/MapContext.java:60-61 | calling a function the context does not define fails with UndefinedFunction, its message prefixed twice with "Undefined function: " |
| EvaluationProperties.ConcatOfTwo | doclerk-core/src/main/java/io/github/doclerk/core/expression/TemplateStringExpression.java:121-133 | a concatenation of two segments that render yields their texts joined, in order |
| EvaluationProperties.BindingsAt | modules/mod-in-testplan/src/main/java/io/github/doclerk/mod/testplan/TestPlanYamlDocRoot.java:155-158 | a name bound by a later argument is overwritten by it: the last argument with a name wins |
| EvaluationProperties.TooManyArgumentsFail | modules/mod-in-testplan/src/main/java/io/github/doclerk/mod/testplan/TestPlanYamlDocRoot.java:153-157 | calling a macro with more arguments than names fails with IndexOutOfBounds at the first missing name |
| EvaluationProperties.ParameterIsCallByName | modules/mod-in-testplan/src/main/java/io/github/doclerk/mod/testplan/TestPlanYamlDocRoot.java:149-164 | a macro returning `&a` evaluates to its argument's expression, evaluated on demand (call by name) |
| EvaluationProperties.FreeNameResolvesInHome | modules/mod-in-testplan/src/main/java/io/github/doclerk/mod/testplan/TestPlanYamlDocRoot.java:162 | a name that is not a parameter resolves in the macro's home context, not the caller's |
| EvaluationProperties.RecursiveMacroRunsOutOfFuel | modules/mod-in-testplan/src/main/java/io/github/doclerk/mod/testplan/TestPlanYamlDocRoot.java:149-164 | a macro calling itself never returns: on every fuel it runs out |
| TestPlan.IndexOf | modules/mod-in-testplan/src/main/java/io/github/doclerk/mod/testplan/TestPlanStepReference.java:36 | the index of the first occurrence, or none when the character is absent |
| TestPlan.Split | modules/mod-in-testplan/src/main/java/io/github/doclerk/mod/testplan/TestPlanStepReference.java:36 | `split(marker, 3)`: at most three fields, rejoining them gives the input, and only the last may contain the marker |
| TestPlan.EvalField | modules/mod-in-testplan/src/main/java/io/github/doclerk/mod/testplan/TestPlanYamlStep.java:50-98 | an unset field throws a NullPointerException when read |
| TestPlan.TestPlanYamlStep.constructor | modules/mod-in-testplan/src/main/java/io/github/doclerk/mod/testplan/TestPlanYamlStep.java:34-38 | a new step keeps its id and its compiled title, and every other field is unset |
| TestPlan.TestPlanYamlStep.State | modules/mod-in-testplan/src/main/java/io/github/doclerk/mod/testplan/TestPlanYamlStep.java:25-32 | the step's state is complete exactly when all five fields are set |
| TestPlan.TestPlanYamlStep.SetDescription | modules/mod-in-testplan/src/main/java/io/github/doclerk/mod/testplan/TestPlanYamlStep.java:55-57 | the description becomes the template compiled in the root context, and the getter evaluates it; a failed compilation changes nothing; no other field changes |
| TestPlan.TestPlanYamlStep.SetExpectedResult | modules/mod-in-testplan/src/main/java/io/github/doclerk/mod/testplan/TestPlanYamlStep.java:59-98 | as `SetDescription`, for the expected result |
| TestPlan.TestPlanYamlStep.SetRequiredData | modules/mod-in-testplan/src/main/java/io/github/doclerk/mod/testplan/TestPlanYamlStep.java:59-98 | as `SetDescription`, for the required data |
| TestPlan.TestPlanYamlStep.SetPreCondition | modules/mod-in-testplan/src/main/java/io/github/doclerk/mod/testplan/TestPlanYamlStep.java:59-98 | as `SetDescription`, for the precondition |
| TestPlan.TestPlanYamlStep.SetComment | modules/mod-in-testplan/src/main/java/io/github/doclerk/mod/testplan/TestPlanYamlStep.java:59-98 | as `SetDescription`, for the comment |
| TestPlan.NewStep | modules/mod-in-testplan/src/main/java/io/github/doclerk/mod/testplan/TestPlanYamlStep.java:34-38 | a step created with a title fails as its compilation does, or is fresh with nothing set and a description that throws when read |
| TestPlan.ReadYamlStep | modules/mod-in-testplan/src/main/java/io/github/doclerk/mod/testplan/TestPlanYamlScenario.java:86-94 | reading an inline step creates the step and then sets description, precondition, required data, expected result and comment from the map, failing at the first field that does not compile |
| TestPlan.StepObjectsSnoc | modules/mod-in-testplan/src/main/java/io/github/doclerk/mod/testplan/TestPlanYamlScenario.java:51-54 | the inline steps of a list grow by the step appended |
| TestPlan.Specs | modules/mod-in-testplan/src/main/java/io/github/doclerk/mod/testplan/TestPlanYamlScenario.java:51-54 | one entry per step |
| Base.CollectFailsEarly | modules/mod-in-testplan/src/main/java/io/github/doclerk/mod/testplan/TestPlanYamlScenario.java:51-54 | once one entry fails, reading more entries keeps that failure: the first failing step is the scenario's error |
| Base.CollectPrefix | modules/mod-in-testplan/src/main/java/io/github/doclerk/mod/testplan/TestPlanYamlScenario.java:51-54 | reading the first entries succeeds exactly when every entry not skipped reads, and then yields those entries' values in order |
| TestPlan.ReadStepPart | modules/mod-in-testplan/src/main/java/io/github/doclerk/mod/testplan/TestPlanYamlScenario.java:96-106 | a reference string becomes a reference step, a mapping a freshly created inline step; either holds what the step specification reads, and its failure is the entry's failure |
| TestPlan.ReadNextStep | modules/mod-in-testplan/src/main/java/io/github/doclerk/mod/testplan/TestPlanYamlScenario.java:51-54 | one pass over the list: a null entry is skipped, another is read and appended, a failing one ends the read with its error; the steps held so far stay as they were |
| TestPlan.ReadStepList | modules/mod-in-testplan/src/main/java/io/github/doclerk/mod/testplan/TestPlanYamlScenario.java:50-54 | the loop over the step list fails with the first failing entry's error, and otherwise holds, in order, exactly the steps read from the non-null entries, all freshly created |
| TestPlanProperties.PresentOfOutcomes | modules/mod-in-testplan/src/main/java/io/github/doclerk/mod/testplan/TestPlanYamlScenario.java:52-53 | the outcomes not skipped are those of the non-null entries, in order |
| TestPlan.ReadScenario | modules/mod-in-testplan/src/main/java/io/github/doclerk/mod/testplan/TestPlanYamlScenario.java:41-56 | a scenario compiles title, goal and context in that order, then its steps (none when `steps` is null), failing at the first error; its steps are new objects |
| TestPlanProperties.ScenarioGetters | modules/mod-in-testplan/src/main/java/io/github/doclerk/mod/testplan/TestPlanYamlScenario.java:68-79 | `getTitle`, `getGoal` and `getContext` evaluate on each call the template the constructor compiled from the data: a missing key reads as null, a text without `$` and `&` as itself |
| TestPlanProperties.ScenarioFieldEvaluates | modules/mod-in-testplan/src/main/java/io/github/doclerk/mod/testplan/TestPlanYamlScenario.java:46-48 | one compiled scenario field evaluates to null when its key is missing, and to its text when that text holds no `$` or `&` |
| TestPlanProperties.IndexOfFirst | modules/mod-in-testplan/src/main/java/io/github/doclerk/mod/testplan/TestPlanStepReference.java:36 | the marker after a marker-free prefix is found at the prefix's end |
| TestPlanProperties.SplitAt | modules/mod-in-testplan/src/main/java/io/github/doclerk/mod/testplan/TestPlanStepReference.java:36 | splitting at a marker gives the marker-free prefix followed by the split of the rest |
| TestPlanProperties.SplitWhole | modules/mod-in-testplan/src/main/java/io/github/doclerk/mod/testplan/TestPlanStepReference.java:36 | a text without the marker is one field |
| TestPlanProperties.ReferenceRoundTrip | modules/mod-in-testplan/src/main/java/io/github/doclerk/mod/testplan/TestPlanStepReference.java:33-44 | round trip: parsing the text of a reference gives back the reference |
| TestPlanProperties.ParsedReferenceIsText | modules/mod-in-testplan/src/main/java/io/github/doclerk/mod/testplan/TestPlanStepReference.java:33-44 | a parsed reference keeps its id, has marker-free section and scenario ids, and its text is the input after the first character |
| TestPlanProperties.FieldsAreReferenceText | modules/mod-in-testplan/src/main/java/io/github/doclerk/mod/testplan/TestPlanStepReference.java:33-44 | two or three fields joined by the marker are the text of the reference made of them, after its leading marker |
| TestPlanProperties.InvalidReference | modules/mod-in-testplan/src/main/java/io/github/doclerk/mod/testplan/TestPlanStepReference.java:36-42 | a reference fails exactly when no marker follows the first character, with "invalid reference: …" |
| TestPlanProperties.TrailingEmptyStepId | modules/mod-in-testplan/src/main/java/io/github/doclerk/mod/testplan/TestPlanStepReference.java:36-43 | a trailing marker gives an empty step id, not a missing one (`split` with a limit keeps trailing empty strings) |
| TestPlanProperties.TrailingEmptyScenarioId | modules/mod-in-testplan/src/main/java/io/github/doclerk/mod/testplan/TestPlanStepReference.java:36-43 | `§a§` has an empty scenario id and no step id |
| TestPlanProperties.SectionTitleIsFirstMatch | modules/mod-in-testplan/src/main/java/io/github/doclerk/mod/testplan/TestPlanStepReference.java:90-96 | the section title is the evaluated title of the first section with the id, and "Undefined section: id" when there is none |
| TestPlanProperties.ReferenceFields | modules/mod-in-testplan/src/main/java/io/github/doclerk/mod/testplan/TestPlanStepReference.java:46-88 | a reference's expected result, precondition, required data and comment are the empty text for any sections; its title and description fail exactly when the section lookup fails, and otherwise carry the section title, the scenario id and, for the description, the step id |
| TestPlanProperties.NonNull | modules/mod-in-testplan/src/main/java/io/github/doclerk/mod/testplan/TestPlanYamlScenario.java:52 | the filtered entries are all non-null |
| TestPlanProperties.NonNullSnoc | modules/mod-in-testplan/src/main/java/io/github/doclerk/mod/testplan/TestPlanYamlScenario.java:52 | filtering one more entry keeps it exactly when it is non-null |
| TestPlanProperties.ReadStepsPrefix | modules/mod-in-testplan/src/main/java/io/github/doclerk/mod/testplan/TestPlanYamlScenario.java:51-54 | reading a prefix of the steps succeeds exactly when every non-null entry reads, and yields them in order |
| TestPlanProperties.StepsAreNonNullEntriesInOrder | modules/mod-in-testplan/src/main/java/io/github/doclerk/mod/testplan/TestPlanYamlScenario.java:50-54 | a scenario's steps are its non-null entries, read in order; reading fails exactly when one entry fails |
| TestPlanProperties.TextEntries | modules/mod-in-testplan/src/main/java/io/github/doclerk/mod/testplan/TestPlanYamlScenario.java:96-106 | a text starting with the marker becomes a reference with no id; any other text fails the mapping cast |
| TestPlanProperties.MissingFieldIsNull | modules/mod-in-testplan/src/main/java/io/github/doclerk/mod/testplan/TestPlanYamlScenario.java:86-94 | an inline step has no id, and a field missing from the map is a NullExpression |
| TestPlanRoots.ReadProperties | modules/mod-in-testplan/src/main/java/io/github/doclerk/mod/testplan/TestPlanYamlDocRoot.java:170-179 | the property map has exactly the keys of the entries |
| TestPlanRoots.MacroNamesAreDistinct | modules/mod-in-testplan/src/main/java/io/github/doclerk/mod/testplan/TestPlanYamlDocRoot.java:128-130 | different `.yml` file names give different macro names |
| TestPlanRoots.ReadMacros | modules/mod-in-testplan/src/main/java/io/github/doclerk/mod/testplan/TestPlanYamlDocRoot.java:121-139 | the `readMacros` loop computes the table of the folders in order, each folder's macros put over the earlier ones |
| TestPlanRoots.LastFolderWins | modules/mod-in-testplan/src/main/java/io/github/doclerk/mod/testplan/TestPlanYamlDocRoot.java:121-139 | a name is in the table exactly when some folder defines it, and the last folder defining it wins |
| TestPlanRoots.FolderMacroOfFile | modules/mod-in-testplan/src/main/java/io/github/doclerk/mod/testplan/TestPlanYamlDocRoot.java:127-131 | a file `name.yml` in a folder defines the macro `name` |
| TestPlanRoots.PropertiesHaveNoContext | modules/mod-in-testplan/src/main/java/io/github/doclerk/mod/testplan/TestPlanYamlDocRoot.java:170-179 | each property is the template of its value compiled with no context, because the root context is not yet assigned when properties are read |
| TestPlanRoots.PropertyReferenceFails | modules/mod-in-testplan/src/main/java/io/github/doclerk/mod/testplan/TestPlanYamlDocRoot.java:175 | a property that references another variable fails with a NullPointerException when evaluated |
| TestPlanRoots.PlainPropertyEvaluates | modules/mod-in-testplan/src/main/java/io/github/doclerk/mod/testplan/TestPlanYamlDocRoot.java:175 | a property without sigils evaluates to its own text through the root context |
| TestPlanRoots.MacroHomeIsRootContext | modules/mod-in-testplan/src/main/java/io/github/doclerk/mod/testplan/TestPlanYamlDocRoot.java:149-164 | every macro of a root is found in the root context, with the root context as its home |
| TestPlanRoots.ListedFolderOverridesDefault | modules/mod-in-testplan/src/main/java/io/github/doclerk/mod/testplan/TestPlanYamlDocRoot.java:121-139 | the default `macro` folder comes first, so a listed folder defining the same macro overrides it |
| DocRoots.NewCompound | doclerk-core/src/main/java/io/github/doclerk/core/model/std/CompoundDocRoot.java:40-51 | null first, second or other roots fail with their messages; otherwise the components are kept in argument order |
| DocRoots.CompoundId | doclerk-core/src/main/java/io/github/doclerk/core/model/std/CompoundDocRoot.java:99-105 | the `getId` loop computes the left fold of the ids |
| DocRoots.CompoundTitle | doclerk-core/src/main/java/io/github/doclerk/core/model/std/CompoundDocRoot.java:113-119 | the `getTitle` loop computes the left fold of the titles |
| DocRoots.CompoundParts | doclerk-core/src/main/java/io/github/doclerk/core/model/std/CompoundDocRoot.java:90-96 | the `getParts` loop computes the left fold of the parts |
| DocRoots.CompoundVar | doclerk-core/src/main/java/io/github/doclerk/core/model/std/CompoundDocRoot.java:57-69 | the reverse variable loop computes the search from the last component |
| DocRoots.CompoundFunction | doclerk-core/src/main/java/io/github/doclerk/core/model/std/CompoundDocRoot.java:72-84 | the reverse function loop computes the search from the last component |
| DocRootProperties.FoldLeftSnoc | doclerk-core/src/main/java/io/github/doclerk/core/model/std/CompoundDocRoot.java:92-94 | folding one more element applies the merger once more |
| DocRootProperties.Ids | doclerk-core/src/main/java/io/github/doclerk/core/model/std/CompoundDocRoot.java:100-102 | the ids of the components, in order |
| DocRootProperties.Titles | doclerk-core/src/main/java/io/github/doclerk/core/model/std/CompoundDocRoot.java:114-116 | the titles of the components, in order |
| DocRootProperties.Parts | doclerk-core/src/main/java/io/github/doclerk/core/model/std/CompoundDocRoot.java:91-93 | the parts of the components, in order |
| DocRootProperties.IdFoldPrefix | doclerk-core/src/main/java/io/github/doclerk/core/model/std/CompoundDocRoot.java:99-105 | the id loop after n steps is the left fold over the first n further components |
| DocRootProperties.TitleFoldPrefix | doclerk-core/src/main/java/io/github/doclerk/core/model/std/CompoundDocRoot.java:113-119 | the title loop after n steps is the left fold over the first n further components |
| DocRootProperties.PartsFoldPrefix | doclerk-core/src/main/java/io/github/doclerk/core/model/std/CompoundDocRoot.java:90-96 | the parts loop after n steps is the left fold over the first n further components |
| DocRootProperties.CompoundIsLeftFold | doclerk-core/src/main/java/io/github/doclerk/core/model/std/CompoundDocRoot.java:90-119 | id, title and parts are the policy's mergers folded from the first component to the last, with (current, other) argument order |
| DocRootProperties.PairIsMerged | doclerk-core/src/main/java/io/github/doclerk/core/model/std/CompoundDocRoot.java:133-143 | a compound of two roots applies each merger once to (first, second) |
| DocRootProperties.BlankRootIsEmpty | doclerk-core/src/main/java/io/github/doclerk/core/model/std/BlankDocRoot.java:33-68 | a blank root has no id, title or parts, and its context defines no variable and no function |
| DocRootProperties.SearchBackFindsLast | doclerk-core/src/main/java/io/github/doclerk/core/model/std/CompoundDocRoot.java:59-68 | the backward search returns the last outcome it does not skip, or the fresh error when it skips all |
| DocRootProperties.CompositeVarIsSearch | doclerk-core/src/main/java/io/github/doclerk/core/model/std/CompoundDocRoot.java:57-69 | the compound variable lookup over the first n components is the backward search |
| DocRootProperties.CompositeFunctionIsSearch | doclerk-core/src/main/java/io/github/doclerk/core/model/std/CompoundDocRoot.java:72-84 | the compound function lookup over the first n components is the backward search |
| DocRootProperties.CompositeVarIsLastDefined | doclerk-core/src/main/java/io/github/doclerk/core/model/std/CompoundDocRoot.java:57-69 | a variable comes from the last component whose lookup is not UndefinedVariable; when all are, the lookup fails with a fresh UndefinedVariableException |
| DocRootProperties.CompositeFunctionIsLastDefined | doclerk-core/src/main/java/io/github/doclerk/core/model/std/CompoundDocRoot.java:72-84 | a function comes from the last component whose lookup is not UndefinedFunction; when all are, it fails with "Undefined function: name" |
| DocRootProperties.MapRootHidesEarlierVariables | doclerk-core/src/main/java/io/github/doclerk/core/model/std/CompoundDocRoot.java:62-66 | when the last component is a blank or plan root, its failure for a missing variable is a plain DoclerkException, which stops the search there |
| DocRootProperties.MapRootFunction | doclerk-core/src/main/java/io/github/doclerk/core/model/std/BlankDocRoot.java:33-36 | a blank or plan root reports a function undefined exactly when it has no macro of that name |
| DocRootProperties.LastMacroWins | doclerk-core/src/main/java/io/github/doclerk/core/model/std/CompoundDocRoot.java:72-84 | among plan roots, a macro comes from the last component defining it, with that root's context as home |
| ModuleContexts.FirstHolding | doclerk-core/src/main/java/io/github/doclerk/core/module/HierarchicalModuleContext.java:34-40 | the value of the first layer holding the key; present exactly when some layer holds it |
| ModuleContexts.FirstHoldingAppend | doclerk-core/src/main/java/io/github/doclerk/core/module/HierarchicalModuleContext.java:36-37 | searching two chains one after the other |
| ModuleContexts.FirstLayerWins | doclerk-core/src/main/java/io/github/doclerk/core/module/HierarchicalModuleContext.java:34-40 | along a chain of layers, the first layer holding the key wins, and a key no layer holds is empty |
| ModuleContexts.Module.constructor | doclerk-core/src/main/java/io/github/doclerk/core/module/AbstractModule.java:32 | a module's context starts as its default context |
| ModuleContexts.Module.WithContext | doclerk-core/src/main/java/io/github/doclerk/core/module/AbstractModule.java:35-38 | the new context is layered over the old one and shadows it, keys it lacks still come from the old one, and the same module is returned; a null context fails and changes nothing |
| ModuleContexts.NewestLayerWins | doclerk-core/src/main/java/io/github/doclerk/core/module/HierarchicalModuleContext.java:34-40 | after several `withContext` calls, a key comes from the newest layer holding it, then from the starting context |
| ExecutionPlans.GetIsFirstEntry | doclerk-cli/src/main/java/io/github/doclerk/cli/YamlExecutionPlan.java:44-58 | `map.get` answers the value of the first entry with the key, and null when there is none |
| ExecutionPlans.GetOfDistinctKeys | doclerk-cli/src/main/java/io/github/doclerk/cli/YamlExecutionPlan.java:44-58 | on a mapping without repeated keys, as SnakeYAML loads one, `map.get` of each entry's key is that entry's value |
| ExecutionPlans.ModulesFailEarly | doclerk-cli/src/main/java/io/github/doclerk/cli/YamlExecutionPlan.java:49-56 | the first module entry that fails makes the plan fail with its error |
| ExecutionPlans.ExecutionsFailEarly | doclerk-cli/src/main/java/io/github/doclerk/cli/YamlExecutionPlan.java:45-59 | the first execution entry that fails makes the plan fail with its error |
| ExecutionPlans.ReadModuleList | doclerk-cli/src/main/java/io/github/doclerk/cli/YamlExecutionPlan.java:49-56 | the module loop computes the module fold |
| ExecutionPlans.ReadPlanEntry | doclerk-cli/src/main/java/io/github/doclerk/cli/YamlExecutionPlan.java:46-58 | one plan entry: its modules (none when missing), then its id |
| ExecutionPlans.NewExecutionPlan | doclerk-cli/src/main/java/io/github/doclerk/cli/YamlExecutionPlan.java:38-60 | the constructor's loop computes the plan read from the document |
| ExecutionPlanProperties.ModulesPrefix | doclerk-cli/src/main/java/io/github/doclerk/cli/YamlExecutionPlan.java:49-56 | a prefix of the modules reads exactly when each entry reads, one module per entry in order |
| ExecutionPlanProperties.ModulesAreEntriesInOrder | doclerk-cli/src/main/java/io/github/doclerk/cli/YamlExecutionPlan.java:49-56 | modules keep their order, one per entry, and reading fails exactly when one entry fails |
| ExecutionPlanProperties.ExecutionsPrefix | doclerk-cli/src/main/java/io/github/doclerk/cli/YamlExecutionPlan.java:45-59 | a prefix of the plan reads exactly when each entry reads, one execution per entry in order |
| ExecutionPlanProperties.ExecutionsAreEntriesInOrder | doclerk-cli/src/main/java/io/github/doclerk/cli/YamlExecutionPlan.java:44-59 | there is one execution per `plan` entry, in plan order, and the plan fails exactly when one entry fails |
| ExecutionPlanProperties.MissingPlanFails | doclerk-cli/src/main/java/io/github/doclerk/cli/YamlExecutionPlan.java:43-45 | a null document, or one without `plan`, fails with NullPointerException |
| ExecutionPlanProperties.ExecutionFields | doclerk-cli/src/main/java/io/github/doclerk/cli/YamlExecutionPlan.java:47-58 | an execution's id is its `id` value's text, a missing `modules` gives no modules, and a missing `id` fails |
| ExecutionPlanProperties.ModuleFields | doclerk-cli/src/main/java/io/github/doclerk/cli/YamlExecutionPlan.java:52-53 | a module entry reads exactly when it has a `module` and its `params` is null or a mapping, and then has the module's text and those parameters |
| ExecutionPlanProperties.OneIsRenderedAsDigit | doclerk-cli/src/main/java/io/github/doclerk/cli/YamlExecutionPlan.java:58 | the number 1 becomes the id "1" |
| ExecutionPlanProperties.SamplePlan | doclerk-cli/src/test/java/io/github/doclerk/cli/YamlExecutionPlanTest.java:35-67 | the document of the plan reader's test reads to one execution "1" with two TestModule executions and their parameters, in order |
| Cli.ModuleRunFailsEarly | doclerk-cli/src/main/java/io/github/doclerk/cli/Doclerk.java:126-144 | once a module execution fails, the rest of the execution is skipped |
| Cli.PlanFailsEarly | doclerk-cli/src/main/java/io/github/doclerk/cli/Doclerk.java:122-149 | once a failure escapes the catch, no further execution runs |
| Cli.WithRunContexts | doclerk-cli/src/main/java/io/github/doclerk/cli/Doclerk.java:140 | the first three `withContext` calls push environment, system and options onto the module's context, in that order |
| Cli.RunModule | doclerk-cli/src/main/java/io/github/doclerk/cli/Doclerk.java:127-143 | one module execution: an unknown name fails; otherwise the contexts are pushed, the parameters' context is pushed, `run` is called with the root so far, and its output is composed onto that root; the contexts of the other modules do not change |
| Cli.RunExecution | doclerk-cli/src/main/java/io/github/doclerk/cli/Doclerk.java:124-144 | the inner loop starts from a blank root, composes each module's output in order and stops at the first failure; it leaves each module holding the context the specification gives it |
| Cli.Call | doclerk-cli/src/main/java/io/github/doclerk/cli/Doclerk.java:121-150 | `call` returns the number of executions that threw an Exception, a later execution still running after a failed one, and leaves each module holding the context the specification gives it |
| Cli.ExitDecision | doclerk-cli/src/main/java/io/github/doclerk/cli/Doclerk.java:81-96 | with no-exit, a non-zero code without no-fail throws "Exit code: …" and anything else is logged; without no-exit, the status is 0 under no-fail and the code otherwise; the run counts as a success exactly when the code is 0 or no-fail is set |
| CliProperties.FailuresAtMostExecutions | doclerk-cli/src/main/java/io/github/doclerk/cli/Doclerk.java:121-149 | `call` never counts more failures than there are executions |
| CliProperties.UnknownModulesFail | doclerk-cli/src/main/java/io/github/doclerk/cli/Doclerk.java:129-149 | an execution starting with an unknown module fails without touching any context, and the executions after it still run: when all do, every execution is counted |
| CliProperties.NonExceptionEndsCall | doclerk-cli/src/main/java/io/github/doclerk/cli/Doclerk.java:145-147 | a failure that is not an Exception (a stack overflow) ends `call` with that failure |
| CliProperties.ComposedRoot | doclerk-cli/src/main/java/io/github/doclerk/cli/Doclerk.java:131-140 | after a module, the id is the previous id and the output's joined with ",", the title joined with "-", null rendering as "null", and the parts are the insertion-ordered union |
| CliProperties.FirstCompositeId | doclerk-cli/src/main/java/io/github/doclerk/cli/Doclerk.java:125-133 | the first module of an execution builds on a blank root, so the id reads "null,<id>" and the title "null-<title>" |
| CliProperties.PartsAreOrderedUnion | doclerk-cli/src/main/java/io/github/doclerk/cli/Doclerk.java:134-138 | merged parts are exactly the parts of both sides, none twice, with a repetition-free left side first and unchanged |
| CliProperties.OutputShadowsRoot | doclerk-cli/src/main/java/io/github/doclerk/cli/Doclerk.java:131-140 | a module's output answers variable lookups first, and the previous root only for what the output reports undefined |
| CliProperties.ParametersWin | doclerk-cli/src/main/java/io/github/doclerk/cli/Doclerk.java:140 | a module sees its parameters first, then options, then system, then environment, then what it held before |
| CliProperties.ParametersLeakAcrossExecutions | doclerk-cli/src/main/java/io/github/doclerk/cli/Doclerk.java:122-140 | the same module object serves every execution, so parameters given in one execution stay visible in the module's context after the next one |

## Left out

- File and YAML loading: the loaded YAML trees are inputs. This covers the plan reader's `Load`, the test-plan root's file, the macro files and folder listing, and the sections' files. Each macro folder arrives as a map from file name to macro definition, and folder paths are resolved by a `resolve` parameter.
- `TestPlanYamlSection` is not part of this model beyond a section's id and compiled title. Its scenarios come from files.
- `TestPlanStepReference.getTitle`/`getDescription`: the resource-bundle `MessageFormat` text is left out. The model returns the arguments handed to the formatter (`ReferenceTitleOf`, `ReferenceDescriptionOf`, and `ReferenceField` for all six getters).
- Messages made by the JDK are placeholder texts: NullPointerException, ClassCastException and the String index message. Only their exception class is meant.
- `UndefinedVariableException`'s message is assumed to be "Undefined variable: key"; that class is not part of this model.
- The Java sources of `VarExpression`, `NullExpression`, `StringExpression` and `DocExpression` are not part of this model; `VarExpr`, `NullExpr` and `StringExpr` stand for the first three with assumed behaviour. A variable is assumed to evaluate by looking its name up in its context and evaluating the result, and a NullExpression yields null.
- Contexts.GetVar / Contexts.GetFunction: two cases of MapContext.java are outside the model's types. (a) A key mapped to a null value: `getVar` then returns null without asking the parent (MapContext.java:37-41), and the caller fails with a NullPointerException; the model's maps hold an expression for every key, so `LocalVarShadowsParent` states the present-key rule for non-null values only. (b) A parent that is any `ExpressionContext` (MapContext.java:25, 29-30), such as the anonymous context of `CompoundDocRoot` (CompoundDocRoot.java:54-87); the model's parent is `NoContext` or another `MapContext`. Neither arises in the modelled code: every stored value is a compiled expression, and parents are null (TestPlanYamlDocRoot.java:72, BlankDocRoot.java:35) or the root context (TestPlanYamlDocRoot.java:162).
- Evaluation: the fuel bound leaves out macro recursion that runs longer than the fuel given. Running out stands for the stack overflow of a deep recursion at whatever depth the JVM allows.
- `Base.IsLetterOrDigit`: only ASCII letters and digits; Unicode classification is left out.
- The step marker is the single character '§'. The source spells it as a mis-encoded two-character literal, which `substring(1)` does not fit.
- Document parts are `Section` values compared structurally. The source's `LinkedHashSet<DocPart>` compares object identity.
- `getParent`, `getRoot` and the read-only views of `getExecutions`/`getParts` are left out: they return a constant, the root itself, or a view of state the model already exposes.
- Module discovery (`DoclerkModule.findAll`), a module's own `run`, the environment and system contexts, `HashMapModuleContext` and `DoclerkModuleParameters`: modules arrive as a map from name to `Module` object, and the rest are fields of `Cli.Runtime`.
- Everything `call` does before its loop: the option map, `sanitizeUri` and reading the plan file. An exception there goes to picocli's handler, whose exit code is also left out.
- Logging, picocli's argument handling and `System.exit`: the model returns the decision `main` makes (`Cli.ExitDecision`).
- Cli.Call: requires that different names map to different module objects. `findAll` creates one instance per class and `toMap` keys them by name, so the source meets this.
- Cli.Call: `failCount` is an unbounded count; the 32-bit `int` overflow after 2^31 failed executions is left out.
- YAML scalars other than strings, integers and booleans are left out, and mapping keys are strings. `toString` of a nested value follows the collections' `[a, b]` and `{k=v}` forms.
- A YAML value of the wrong type where the source casts is left out; the model's inputs are typed, and each of these would throw a ClassCastException:
  - a property or step-data value that is not a string;
  - a scenario's `title`, `goal` or `context` that is not a string, or `steps` that is not a list (TestPlanYamlScenario.java:46-50, at construction);
  - a section node's `title` that is not a string (TestPlanYamlDocRoot.java:117, when the section is read);
  - a macro file whose document is not a mapping (TestPlanYamlDocRoot.java:147, when the file is read);
  - a macro's `args` that is not a list of strings, or `return` that is not a string (TestPlanYamlDocRoot.java:151, 156 and 160). These fail only when the macro is called, not when it is read.
- A null macro definition is left out. A macro file whose YAML document is empty loads as null, and calling that macro throws a NullPointerException at `macroDef.get("args")` (modules/mod-in-testplan/src/main/java/io/github/doclerk/mod/testplan/TestPlanYamlDocRoot.java:147-151). In the model every macro file holds a `Macro` value.
- A null section node is left out. `readSection` dereferences its node (TestPlanYamlDocRoot.java:117), so a null section entry throws a NullPointerException. In the model a `SectionInput` is always a mapping.
- A null merge policy is left out. The `CompoundDocRoot` constructor checks the roots but not the policy (CompoundDocRoot.java:40-44), so a null policy fails only when a getter merges. In the model `NewCompound` always receives a `MergePolicy`.
- A null `defaultContext()` is left out (AbstractModule.java:32). The `Module` constructor takes a `ModuleContext`, which cannot be null.
