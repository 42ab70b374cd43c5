/**
 * Properties of template compilation, stated through a reading of the text into raw pieces.
 *
 * `Pieces(s)` cuts a template into the texts `parseYmlString` turns into segments, without
 * compiling them. The lemmas show that
 *  - the pieces put back together are the template (nothing is lost or reordered),
 *  - every variable piece is `&` followed by letters, digits, `$`, `(` or `)`, every call
 *    piece runs from a `$` to the `)` that brings the parenthesis count back to zero, and
 *    every literal piece before the last is non-empty and holds neither `$` nor `&`,
 *  - compiling the template is compiling the pieces one by one, left to right.
 */
module TemplateProperties {
  import opened Base
  import opened Contexts
  import opened Parser
  import opened ParserProperties
  import opened Template

  datatype Piece = Literal(text: string) | VarRef(text: string) | CallRef(text: string)

  /** The scanner state with raw pieces in place of compiled segments. */
  datatype PieceScan = PieceScan(pieces: seq<Piece>, token: string, depth: int, inFunc: bool, inVar: bool)

  const PieceScanStart := PieceScan([], "", 0, false, false)

  /** One iteration, branch for branch as in `TemplateStep`, keeping texts instead of parsing them. */
  function PieceStep(s: string, i: nat, st: PieceScan): PieceScan
    requires i < |s|
  {
    var a := s[i];
    if a == '$' then
      if !st.inVar && !st.inFunc then
        var flushed := if st.token != [] then st.(pieces := st.pieces + [Literal(st.token)], token := []) else st;
        flushed.(inFunc := true, token := flushed.token + [a])
      else st.(token := st.token + [a])
    else if a == '(' then
      st.(token := st.token + [a], depth := if st.inFunc then st.depth + 1 else st.depth)
    else if a == ')' then
      if st.inFunc && st.depth - 1 == 0 then
        st.(pieces := st.pieces + [CallRef(st.token + [a])], token := [], depth := 0, inFunc := false)
      else if st.inFunc then st.(token := st.token + [a], depth := st.depth - 1)
      else st.(token := st.token + [a])
    else if a == '&' then
      if st.inFunc then st.(token := st.token + [a])
      else if st.token == [] then st.(inVar := true, token := [a])
      else if st.inVar then st.(pieces := st.pieces + [VarRef(st.token)], token := [a])
      else st.(pieces := st.pieces + [Literal(st.token)], token := [a], inVar := true)
    else if !IsLetterOrDigit(a) && st.inVar then
      st.(pieces := st.pieces + [VarRef(st.token)], token := [a], inVar := false)
    else st.(token := st.token + [a])
  }

  function PieceScanFrom(s: string, i: nat, st: PieceScan): PieceScan
    requires i <= |s|
    decreases |s| - i
  {
    if i == |s| then st else PieceScanFrom(s, i + 1, PieceStep(s, i, st))
  }

  function PieceFinish(st: PieceScan): seq<Piece> {
    st.pieces + [if st.token != [] && st.inVar then VarRef(st.token) else Literal(st.token)]
  }

  /** The raw pieces of template `s`. */
  function Pieces(s: string): seq<Piece> {
    PieceFinish(PieceScanFrom(s, 0, PieceScanStart))
  }

  /** The pieces' texts, end to end. */
  function Flatten(ps: seq<Piece>): string {
    if ps == [] then [] else Flatten(ps[..|ps| - 1]) + ps[|ps| - 1].text
  }

  // ---------------------------------------------------------------------------------------
  // Shapes

  predicate IsVarChar(c: char) {
    IsLetterOrDigit(c) || c == '$' || c == '(' || c == ')'
  }

  /** `&` followed by the characters that do not end a variable. */
  predicate IsVarText(t: string) {
    |t| >= 1 && t[0] == '&' && forall j :: 1 <= j < |t| ==> IsVarChar(t[j])
  }

  /** A call: from its `$` to its closing `)`. */
  predicate IsCallText(t: string) {
    |t| >= 2 && t[0] == '$' && t[|t| - 1] == ')'
  }

  /** Text that neither starts a variable nor a call. */
  predicate IsPlainText(t: string) {
    forall j :: 0 <= j < |t| ==> t[j] != '$' && t[j] != '&'
  }

  predicate WellShaped(p: Piece) {
    match p
    case Literal(t) => t != [] && IsPlainText(t)
    case VarRef(t) => IsVarText(t)
    case CallRef(t) => IsCallText(t)
  }

  /** What the pending token looks like in each mode of the scanner. */
  predicate TokenShape(st: PieceScan) {
    !(st.inFunc && st.inVar)
    && (st.inVar ==> IsVarText(st.token))
    && (st.inFunc ==> |st.token| >= 1 && st.token[0] == '$')
    && (!st.inVar && !st.inFunc ==> IsPlainText(st.token))
  }

  predicate ScanShape(st: PieceScan) {
    TokenShape(st) && forall k :: 0 <= k < |st.pieces| ==> WellShaped(st.pieces[k])
  }

  // ---------------------------------------------------------------------------------------
  // Nothing is lost

  lemma FlattenAppend(ps: seq<Piece>, p: Piece)
    ensures Flatten(ps + [p]) == Flatten(ps) + p.text
  {
    assert (ps + [p])[..|ps|] == ps;
  }

  /** Each step either extends the token, or closes a piece holding the old token. */
  lemma StepForm(s: string, i: nat, st: PieceScan)
    requires i < |s|
    ensures var next := PieceStep(s, i, st);
            (next.pieces == st.pieces && next.token == st.token + [s[i]])
            || (|next.pieces| == |st.pieces| + 1 && next.pieces[..|st.pieces|] == st.pieces
                && next.pieces[|st.pieces|].text == st.token && next.token == [s[i]])
            || (|next.pieces| == |st.pieces| + 1 && next.pieces[..|st.pieces|] == st.pieces
                && next.pieces[|st.pieces|].text == st.token + [s[i]] && next.token == [])
  {
    var a := s[i];
    assert [] + [a] == [a];
    var next := PieceStep(s, i, st);
    assert (st.pieces + [Literal(st.token)])[..|st.pieces|] == st.pieces;
    assert (st.pieces + [VarRef(st.token)])[..|st.pieces|] == st.pieces;
    assert (st.pieces + [CallRef(st.token + [a])])[..|st.pieces|] == st.pieces;
  }

  lemma StepKeepsText(s: string, i: nat, st: PieceScan)
    requires i < |s| && Flatten(st.pieces) + st.token == s[..i]
    ensures Flatten(PieceStep(s, i, st).pieces) + PieceStep(s, i, st).token == s[..i + 1]
  {
    var a := s[i];
    assert s[..i + 1] == s[..i] + [a];
    var next := PieceStep(s, i, st);
    StepForm(s, i, st);
    if next.pieces != st.pieces {
      var p := next.pieces[|st.pieces|];
      assert next.pieces == next.pieces[..|st.pieces|] + [p];
      FlattenAppend(st.pieces, p);
    }
  }

  lemma {:induction false} ScanKeepsText(s: string, i: nat, st: PieceScan)
    requires i <= |s| && Flatten(st.pieces) + st.token == s[..i]
    ensures Flatten(PieceScanFrom(s, i, st).pieces) + PieceScanFrom(s, i, st).token == s
    decreases |s| - i
  {
    if i == |s| {
      assert s[..i] == s;
    } else {
      StepKeepsText(s, i, st);
      ScanKeepsText(s, i + 1, PieceStep(s, i, st));
    }
  }

  /** The pieces of a template, put back together, are the template. */
  lemma PiecesAreLossless(s: string)
    ensures Flatten(Pieces(s)) == s
  {
    ScanKeepsText(s, 0, PieceScanStart);
    var st := PieceScanFrom(s, 0, PieceScanStart);
    FlattenAppend(st.pieces, PieceFinish(st)[|st.pieces|]);
    assert PieceFinish(st) == st.pieces + [PieceFinish(st)[|st.pieces|]];
  }

  // ---------------------------------------------------------------------------------------
  // Shapes of the pieces

  lemma StepKeepsShape(s: string, i: nat, st: PieceScan)
    requires i < |s| && ScanShape(st)
    ensures ScanShape(PieceStep(s, i, st))
  {
    StepKeepsTokenShape(s, i, st);
    StepKeepsPieceShapes(s, i, st);
  }

  lemma StepKeepsTokenShape(s: string, i: nat, st: PieceScan)
    requires i < |s| && TokenShape(st)
    ensures TokenShape(PieceStep(s, i, st))
  {
    var a := s[i];
    if a == '$' || a == '(' || a == ')' {
      StructuralStepKeepsTokenShape(s, i, st);
    } else {
      assert [] + [a] == [a];
    }
  }

  lemma StructuralStepKeepsTokenShape(s: string, i: nat, st: PieceScan)
    requires i < |s| && TokenShape(st) && (s[i] == '$' || s[i] == '(' || s[i] == ')')
    ensures TokenShape(PieceStep(s, i, st))
  {
    var a := s[i];
    assert [] + [a] == [a];
  }

  lemma StepKeepsPieceShapes(s: string, i: nat, st: PieceScan)
    requires i < |s| && ScanShape(st)
    ensures var next := PieceStep(s, i, st);
            forall k :: 0 <= k < |next.pieces| ==> WellShaped(next.pieces[k])
  {
    var next := PieceStep(s, i, st);
    if next.pieces != st.pieces {
      StepForm(s, i, st);
      assert next.pieces == st.pieces + [next.pieces[|st.pieces|]];
      assert WellShaped(next.pieces[|st.pieces|]) by {
        assert [] + [s[i]] == [s[i]];
      }
    }
  }

  lemma {:induction false} ScanKeepsShape(s: string, i: nat, st: PieceScan)
    requires i <= |s| && ScanShape(st)
    ensures ScanShape(PieceScanFrom(s, i, st))
    decreases |s| - i
  {
    if i < |s| {
      StepKeepsShape(s, i, st);
      ScanKeepsShape(s, i + 1, PieceStep(s, i, st));
    }
  }

  /**
   * Every piece but the last is well shaped. The last is a variable, a plain literal (perhaps
   * empty), or the whole text of a call that was never closed, kept as a literal.
   */
  lemma PiecesShape(s: string)
    ensures var ps := Pieces(s);
            ps != [] && (forall k :: 0 <= k < |ps| - 1 ==> WellShaped(ps[k]))
            && match ps[|ps| - 1]
               case VarRef(t) => IsVarText(t)
               case Literal(t) => IsPlainText(t) || (t != [] && t[0] == '$')
               case CallRef(_) => false
  {
    ScanKeepsShape(s, 0, PieceScanStart);
  }

  // ---------------------------------------------------------------------------------------
  // Compiling is compiling the pieces

  /** A literal piece is a literal; a variable or call piece is handed to the expression parser. */
  function CompilePiece(p: Piece, ctx: Context): Result<Expr> {
    match p
    case Literal(t) => Ok(StringExpr(t))
    case VarRef(t) => ParseSegment(t, ctx)
    case CallRef(t) => ParseSegment(t, ctx)
  }

  /** Compiles the pieces left to right; the first failure is the result. */
  function CompilePieces(ps: seq<Piece>, ctx: Context): (r: Result<seq<Expr>>)
    ensures r.Ok? ==> |r.value| == |ps|
  {
    if ps == [] then Ok([])
    else
      var init :- CompilePieces(ps[..|ps| - 1], ctx);
      var last :- CompilePiece(ps[|ps| - 1], ctx);
      Ok(init + [last])
  }

  /** One segment stands alone; several make a concatenation. */
  function Assemble(ps: seq<Piece>, ctx: Context): Result<Expr>
    requires ps != []
  {
    var segments :- CompilePieces(ps, ctx);
    Ok(if |segments| > 1 then ConcatExpr(segments) else segments[0])
  }

  predicate Agree(st: TemplateScan, pst: PieceScan, ctx: Context) {
    CompilePieces(pst.pieces, ctx) == Ok(st.segments) && st.token == pst.token
    && st.depth == pst.depth && st.inFunc == pst.inFunc && st.inVar == pst.inVar
  }

  lemma CompilePiecesAppend(ps: seq<Piece>, p: Piece, ctx: Context)
    ensures CompilePieces(ps + [p], ctx)
         == (match CompilePieces(ps, ctx)
             case Err(e) => Err(e)
             case Ok(init) => match CompilePiece(p, ctx)
                              case Err(e) => Err(e)
                              case Ok(last) => Ok(init + [last]))
  {
    assert (ps + [p])[..|ps|] == ps;
  }

  /** Once a prefix of the pieces fails, the whole list fails with the same error. */
  lemma {:induction false} CompilePiecesFailsEarly(ps: seq<Piece>, n: nat, e: Error, ctx: Context)
    requires n <= |ps| && CompilePieces(ps[..n], ctx) == Err(e)
    ensures CompilePieces(ps, ctx) == Err(e)
    decreases |ps|
  {
    if n == |ps| {
      assert ps[..n] == ps;
    } else {
      var init := ps[..|ps| - 1];
      assert init[..n] == ps[..n];
      CompilePiecesFailsEarly(init, n, e, ctx);
    }
  }

  lemma StepAgrees(s: string, i: nat, st: TemplateScan, pst: PieceScan, ctx: Context)
    requires i < |s| && Agree(st, pst, ctx)
    ensures var r := TemplateStep(s, i, st, ctx);
            (r.Ok? ==> Agree(r.value, PieceStep(s, i, pst), ctx))
            && (r.Err? ==> CompilePieces(PieceStep(s, i, pst).pieces, ctx) == Err(r.error))
  {
    var a := s[i];
    if a == '$' || a == '(' || a == ')' {
      StructuralStepAgrees(s, i, st, pst, ctx);
    } else {
      VariableStepAgrees(s, i, st, pst, ctx);
    }
  }

  /** The steps on `$`, `(` and `)`: calls open, nest and close. */
  lemma StructuralStepAgrees(s: string, i: nat, st: TemplateScan, pst: PieceScan, ctx: Context)
    requires i < |s| && Agree(st, pst, ctx) && (s[i] == '$' || s[i] == '(' || s[i] == ')')
    ensures var r := TemplateStep(s, i, st, ctx);
            (r.Ok? ==> Agree(r.value, PieceStep(s, i, pst), ctx))
            && (r.Err? ==> CompilePieces(PieceStep(s, i, pst).pieces, ctx) == Err(r.error))
  {
    var a := s[i];
    if a == '$' {
      CompilePiecesAppend(pst.pieces, Literal(pst.token), ctx);
    } else if a == ')' {
      CompilePiecesAppend(pst.pieces, CallRef(pst.token + [a]), ctx);
    }
  }

  /** The steps on every other character: variables start, end, or the token grows. */
  lemma VariableStepAgrees(s: string, i: nat, st: TemplateScan, pst: PieceScan, ctx: Context)
    requires i < |s| && Agree(st, pst, ctx) && s[i] != '$' && s[i] != '(' && s[i] != ')'
    ensures var r := TemplateStep(s, i, st, ctx);
            (r.Ok? ==> Agree(r.value, PieceStep(s, i, pst), ctx))
            && (r.Err? ==> CompilePieces(PieceStep(s, i, pst).pieces, ctx) == Err(r.error))
  {
    var a := s[i];
    if a == '&' {
      CompilePiecesAppend(pst.pieces, Literal(pst.token), ctx);
      CompilePiecesAppend(pst.pieces, VarRef(pst.token), ctx);
    } else {
      CompilePiecesAppend(pst.pieces, VarRef(pst.token), ctx);
    }
  }

  lemma {:induction false} ScanExtendsPieces(s: string, i: nat, pst: PieceScan)
    requires i <= |s|
    ensures var fin := PieceScanFrom(s, i, pst).pieces;
            |fin| >= |pst.pieces| && fin[..|pst.pieces|] == pst.pieces
    decreases |s| - i
  {
    if i < |s| {
      StepForm(s, i, pst);
      var next := PieceStep(s, i, pst);
      ScanExtendsPieces(s, i + 1, next);
      var fin := PieceScanFrom(s, i + 1, next).pieces;
      assert fin[..|pst.pieces|] == fin[..|next.pieces|][..|pst.pieces|];
    }
  }

  lemma {:induction false} ScanAgrees(s: string, i: nat, st: TemplateScan, pst: PieceScan, ctx: Context)
    requires i <= |s| && Agree(st, pst, ctx)
    ensures var r := TemplateScanFrom(s, i, st, ctx);
            (r.Ok? ==> Agree(r.value, PieceScanFrom(s, i, pst), ctx))
            && (r.Err? ==> CompilePieces(PieceScanFrom(s, i, pst).pieces, ctx) == Err(r.error))
    decreases |s| - i
  {
    if i < |s| {
      StepAgrees(s, i, st, pst, ctx);
      var pnext := PieceStep(s, i, pst);
      var r := TemplateStep(s, i, st, ctx);
      if r.Ok? {
        ScanAgrees(s, i + 1, r.value, pnext, ctx);
      } else {
        ScanExtendsPieces(s, i + 1, pnext);
        var fin := PieceScanFrom(s, i + 1, pnext).pieces;
        CompilePiecesFailsEarly(fin, |pnext.pieces|, r.error, ctx);
      }
    }
  }

  /** Compiling a template is compiling its pieces in order, failing at the first piece that fails. */
  lemma ParseTemplateIsCompiledPieces(s: string, ctx: Context)
    ensures ParseTemplate(s, ctx) == Assemble(Pieces(s), ctx)
  {
    ScanAgrees(s, 0, TemplateScanStart, PieceScanStart, ctx);
    var pst := PieceScanFrom(s, 0, PieceScanStart);
    var last := if pst.token != [] && pst.inVar then VarRef(pst.token) else Literal(pst.token);
    CompilePiecesAppend(pst.pieces, last, ctx);
    var r := TemplateScanFrom(s, 0, TemplateScanStart, ctx);
    if r.Err? {
      assert (pst.pieces + [last])[..|pst.pieces|] == pst.pieces;
      CompilePiecesFailsEarly(pst.pieces + [last], |pst.pieces|, r.error, ctx);
    }
  }

  // ---------------------------------------------------------------------------------------
  // What each piece compiles to

  /** A variable piece is a variable named by everything after its `&`. */
  lemma VarPieceCompiles(t: string, ctx: Context)
    requires IsVarText(t)
    ensures CompilePiece(VarRef(t), ctx) == Ok(VarExpr(t[1..], ctx))
  {
    assert t[|t| - 1] == '&' || IsVarChar(t[|t| - 1]);
    TrimOfTrimmed(t);
    VariableTakesWholeRemainder(t, StringClass, ctx);
  }

  /** A call piece is parsed as a whole by `parseFunction`. */
  lemma CallPieceCompiles(t: string, ctx: Context)
    requires IsCallText(t)
    ensures CompilePiece(CallRef(t), ctx) == ParseFunction(t, ctx)
  {
    TrimOfTrimmed(t);
  }

  // ---------------------------------------------------------------------------------------
  // Spans the scanner copies into the pending token

  lemma {:induction false} ScanPlainSpan(s: string, i: nat, j: nat, st: PieceScan)
    requires i <= j <= |s| && !st.inFunc && !st.inVar && IsPlainText(s[i..j])
    ensures PieceScanFrom(s, i, st) == PieceScanFrom(s, j, st.(token := st.token + s[i..j]))
    decreases j - i
  {
    if i == j {
      assert st.token + s[i..j] == st.token;
    } else {
      assert s[i] == s[i..j][0];
      assert s[i + 1..j] == s[i..j][1..];
      var next := st.(token := st.token + [s[i]]);
      assert PieceStep(s, i, st) == next;
      ScanPlainSpan(s, i + 1, j, next);
      assert next.token + s[i + 1..j] == st.token + s[i..j];
    }
  }

  lemma {:induction false} ScanVarSpan(s: string, i: nat, j: nat, st: PieceScan)
    requires i <= j <= |s| && !st.inFunc && st.inVar
    requires forall k :: i <= k < j ==> IsVarChar(s[k])
    ensures PieceScanFrom(s, i, st) == PieceScanFrom(s, j, st.(token := st.token + s[i..j]))
    decreases j - i
  {
    if i == j {
      assert st.token + s[i..j] == st.token;
    } else {
      var next := st.(token := st.token + [s[i]]);
      assert PieceStep(s, i, st) == next;
      ScanVarSpan(s, i + 1, j, next);
      assert s[i..j] == [s[i]] + s[i + 1..j];
      assert next.token + s[i + 1..j] == st.token + s[i..j];
    }
  }

  /** Inside a call, text with no parenthesis is copied and leaves the count alone. */
  lemma {:induction false} ScanCallNameSpan(s: string, i: nat, j: nat, st: PieceScan)
    requires i <= j <= |s| && st.inFunc && !st.inVar
    requires forall k :: i <= k < j ==> s[k] != '(' && s[k] != ')'
    ensures PieceScanFrom(s, i, st) == PieceScanFrom(s, j, st.(token := st.token + s[i..j]))
    decreases j - i
  {
    if i == j {
      assert st.token + s[i..j] == st.token;
    } else {
      var next := st.(token := st.token + [s[i]]);
      assert PieceStep(s, i, st) == next;
      ScanCallNameSpan(s, i + 1, j, next);
      assert s[i..j] == [s[i]] + s[i + 1..j];
      assert next.token + s[i + 1..j] == st.token + s[i..j];
    }
  }

  /** Inside a call, text with no `)` never closes it: everything goes to the token. */
  lemma {:induction false} ScanUnclosedCall(s: string, i: nat, st: PieceScan)
    requires i <= |s| && st.inFunc && !st.inVar
    requires forall k :: i <= k < |s| ==> s[k] != ')'
    ensures var fin := PieceScanFrom(s, i, st);
            fin.pieces == st.pieces && fin.token == st.token + s[i..] && fin.inFunc && !fin.inVar
    decreases |s| - i
  {
    if i == |s| {
      assert st.token + s[i..] == st.token;
    } else {
      var next := PieceStep(s, i, st);
      assert next.pieces == st.pieces && next.token == st.token + [s[i]] && next.inFunc && !next.inVar;
      ScanUnclosedCall(s, i + 1, next);
      assert s[i..] == [s[i]] + s[i + 1..];
      assert next.token + s[i + 1..] == st.token + s[i..];
    }
  }

  // ---------------------------------------------------------------------------------------
  // Consequences

  /** The compiled pieces of a one-piece list. */
  lemma CompileOnePiece(a: Piece, ctx: Context)
    ensures CompilePieces([a], ctx) == (var x :- CompilePiece(a, ctx); Ok([x]))
  {
    CompilePiecesAppend([], a, ctx);
    assert [] + [a] == [a];
    if CompilePiece(a, ctx).Ok? {
      assert [] + [CompilePiece(a, ctx).value] == [CompilePiece(a, ctx).value];
    }
  }

  /** Appending a piece to a compiled list: the new piece's outcome decides, after the list's own. */
  lemma CompileSnoc(ps: seq<Piece>, p: Piece, ctx: Context, init: seq<Expr>)
    requires CompilePieces(ps, ctx) == Ok(init)
    ensures CompilePieces(ps + [p], ctx) == (var x :- CompilePiece(p, ctx); Ok(init + [x]))
  {
    CompilePiecesAppend(ps, p, ctx);
  }

  /** Appending a piece to a list that fails: the list's failure stays. */
  lemma CompileSnocFails(ps: seq<Piece>, p: Piece, ctx: Context)
    requires CompilePieces(ps, ctx).Err?
    ensures CompilePieces(ps + [p], ctx) == CompilePieces(ps, ctx)
  {
    CompilePiecesAppend(ps, p, ctx);
  }

  lemma AssembleOne(a: Piece, ctx: Context)
    ensures Assemble([a], ctx) == (var x :- CompilePiece(a, ctx); Ok(x))
  {
    CompileOnePiece(a, ctx);
  }

  lemma AssembleTwo(a: Piece, b: Piece, ctx: Context)
    ensures Assemble([a, b], ctx)
         == (var x :- CompilePiece(a, ctx); var y :- CompilePiece(b, ctx); Ok(ConcatExpr([x, y])))
  {
    CompileOnePiece(a, ctx);
    assert [a] + [b] == [a, b];
    var x := CompilePiece(a, ctx);
    if x.Ok? {
      CompileSnoc([a], b, ctx, [x.value]);
      if CompilePiece(b, ctx).Ok? {
        assert [x.value] + [CompilePiece(b, ctx).value] == [x.value, CompilePiece(b, ctx).value];
      }
    } else {
      CompileSnocFails([a], b, ctx);
    }
  }

  /** The compiled pieces of a two-piece list. */
  lemma CompileTwoPieces(a: Piece, b: Piece, ctx: Context)
    ensures CompilePieces([a, b], ctx)
         == (var x :- CompilePiece(a, ctx); var y :- CompilePiece(b, ctx); Ok([x, y]))
  {
    CompileOnePiece(a, ctx);
    assert [a] + [b] == [a, b];
    var x := CompilePiece(a, ctx);
    if x.Ok? {
      CompileSnoc([a], b, ctx, [x.value]);
      if CompilePiece(b, ctx).Ok? {
        assert [x.value] + [CompilePiece(b, ctx).value] == [x.value, CompilePiece(b, ctx).value];
      }
    } else {
      CompileSnocFails([a], b, ctx);
    }
  }

  lemma AssembleThree(a: Piece, b: Piece, c: Piece, ctx: Context)
    ensures Assemble([a, b, c], ctx)
         == (var x :- CompilePiece(a, ctx); var y :- CompilePiece(b, ctx); var z :- CompilePiece(c, ctx);
             Ok(ConcatExpr([x, y, z])))
  {
    CompileTwoPieces(a, b, ctx);
    assert [a, b] + [c] == [a, b, c];
    var r2 := CompilePieces([a, b], ctx);
    if r2.Ok? {
      var x, y := CompilePiece(a, ctx).value, CompilePiece(b, ctx).value;
      assert r2.value == [x, y];
      CompileSnoc([a, b], c, ctx, [x, y]);
      if CompilePiece(c, ctx).Ok? {
        assert [x, y] + [CompilePiece(c, ctx).value] == [x, y, CompilePiece(c, ctx).value];
      }
    } else {
      CompileSnocFails([a, b], c, ctx);
    }
  }

  /** Text with neither `$` nor `&` is one literal piece. */
  lemma PiecesOfPlainText(s: string)
    requires IsPlainText(s)
    ensures Pieces(s) == [Literal(s)]
  {
    assert s[0..|s|] == s;
    ScanPlainSpan(s, 0, |s|, PieceScanStart);
    assert PieceScanStart.token + s[0..|s|] == s;
  }

  /** Text with neither `$` nor `&` compiles to one literal equal to the input. */
  lemma LiteralTemplate(s: string, ctx: Context)
    requires IsPlainText(s)
    ensures ParseTemplate(s, ctx) == Ok(StringExpr(s))
  {
    PiecesOfPlainText(s);
    ParseTemplateIsCompiledPieces(s, ctx);
    AssembleOne(Literal(s), ctx);
  }

  lemma PiecesOfVariable(x: string)
    requires forall k :: 0 <= k < |x| ==> IsVarChar(x[k])
    ensures Pieces(['&'] + x) == [VarRef(['&'] + x)]
  {
    var s := ['&'] + x;
    var st := PieceScanStart.(inVar := true, token := ['&']);
    assert PieceStep(s, 0, PieceScanStart) == st;
    assert forall k :: 1 <= k < |s| ==> s[k] == x[k - 1];
    ScanVarSpan(s, 1, |s|, st);
    assert s[1..|s|] == x;
  }

  /** `&x` is a bare variable: `$`, `(` and `)` do not end it, and no literal follows it. */
  lemma VariableTemplate(x: string, ctx: Context)
    requires forall k :: 0 <= k < |x| ==> IsVarChar(x[k])
    ensures ParseTemplate(['&'] + x, ctx) == Ok(VarExpr(x, ctx))
  {
    var s := ['&'] + x;
    PiecesOfVariable(x);
    ParseTemplateIsCompiledPieces(s, ctx);
    AssembleOne(VarRef(s), ctx);
    VarPieceCompiles(s, ctx);
    assert s[1..] == x;
  }

  /** A literal, then `&` and variable characters: one literal piece, with the variable pending. */
  lemma LiteralThenVariable(s: string, p: string, x: string, j: nat)
    requires p != [] && IsPlainText(p) && j == |p| + 1 + |x| <= |s| && s[..j] == p + ['&'] + x
    requires forall k :: 0 <= k < |x| ==> IsVarChar(x[k])
    ensures PieceScanFrom(s, 0, PieceScanStart) == PieceScanFrom(s, j, PieceScan([Literal(p)], ['&'] + x, 0, false, true))
  {
    var i := |p|;
    assert s[0..i] == p by {
      assert s[..j][..i] == p;
    }
    ScanPlainSpan(s, 0, i, PieceScanStart);
    var st0 := PieceScanStart.(token := PieceScanStart.token + p);
    assert PieceScanStart.token + p == p;
    assert s[i] == '&' by {
      assert s[..j][i] == '&';
    }
    var st1 := PieceScan([Literal(p)], ['&'], 0, false, true);
    assert PieceStep(s, i, st0) == st1;
    assert forall k :: i + 1 <= k < j ==> s[k] == x[k - i - 1] by {
      assert forall k :: i + 1 <= k < j ==> s[..j][k] == x[k - i - 1];
    }
    ScanVarSpan(s, i + 1, j, st1);
    assert s[i + 1..j] == x;
  }

  /** A character that cannot continue a variable ends it and starts a literal running to the end. */
  lemma VariableThenLiteral(s: string, j: nat, pieces: seq<Piece>, v: string)
    requires j < |s| && IsPlainText(s[j..]) && !IsVarChar(s[j])
    ensures PieceScanFrom(s, j, PieceScan(pieces, v, 0, false, true))
         == PieceScan(pieces + [VarRef(v)], s[j..], 0, false, false)
  {
    var q := s[j..];
    var st3 := PieceScan(pieces + [VarRef(v)], [q[0]], 0, false, false);
    assert PieceStep(s, j, PieceScan(pieces, v, 0, false, true)) == st3;
    var tail := s[j + 1..|s|];
    assert forall k :: 0 <= k < |tail| ==> tail[k] == q[k + 1];
    assert IsPlainText(tail);
    ScanPlainSpan(s, j + 1, |s|, st3);
    assert [q[0]] + tail == q;
  }

  lemma PiecesOfVariableBetweenLiterals(p: string, x: string, q: string)
    requires p != [] && IsPlainText(p) && q != [] && IsPlainText(q)
    requires forall k :: 0 <= k < |x| ==> IsVarChar(x[k])
    requires !IsVarChar(q[0])
    ensures Pieces(p + ['&'] + x + q) == [Literal(p), VarRef(['&'] + x), Literal(q)]
  {
    var s := p + ['&'] + x + q;
    var j := |p| + 1 + |x|;
    assert s[..j] == p + ['&'] + x && s[j..] == q;
    LiteralThenVariable(s, p, x, j);
    VariableThenLiteral(s, j, [Literal(p)], ['&'] + x);
  }

  /**
   * A variable ends at the first character that is none of letter, digit, `$`, `(`, `)` and
   * `&`; that character begins the next literal.
   */
  lemma VariableBetweenLiterals(p: string, x: string, q: string, ctx: Context)
    requires p != [] && IsPlainText(p) && q != [] && IsPlainText(q)
    requires forall k :: 0 <= k < |x| ==> IsVarChar(x[k])
    requires !IsVarChar(q[0])
    ensures ParseTemplate(p + ['&'] + x + q, ctx)
         == Ok(ConcatExpr([StringExpr(p), VarExpr(x, ctx), StringExpr(q)]))
  {
    var v := ['&'] + x;
    PiecesOfVariableBetweenLiterals(p, x, q);
    ParseTemplateIsCompiledPieces(p + ['&'] + x + q, ctx);
    AssembleThree(Literal(p), VarRef(v), Literal(q), ctx);
    VarPieceCompiles(v, ctx);
    assert v[1..] == x;
  }

  lemma PiecesOfAdjacentVariables(x: string, y: string)
    requires forall k :: 0 <= k < |x| ==> IsVarChar(x[k])
    requires forall k :: 0 <= k < |y| ==> IsVarChar(y[k])
    ensures Pieces(['&'] + x + ['&'] + y) == [VarRef(['&'] + x), VarRef(['&'] + y)]
  {
    var s := ['&'] + x + ['&'] + y;
    var u := ['&'] + x;
    var j := 1 + |x|;
    var st0 := PieceScanStart.(inVar := true, token := ['&']);
    assert PieceStep(s, 0, PieceScanStart) == st0;
    assert forall k :: 1 <= k < j ==> s[k] == x[k - 1];
    ScanVarSpan(s, 1, j, st0);
    assert s[1..j] == x;
    var st1 := PieceScan([VarRef(u)], ['&'], 0, false, true);
    assert s[j] == '&';
    assert PieceStep(s, j, st0.(token := u)) == st1;
    assert forall k :: j + 1 <= k < |s| ==> s[k] == y[k - j - 1];
    ScanVarSpan(s, j + 1, |s|, st1);
    assert s[j + 1..|s|] == y;
  }

  /** A second `&` ends a variable and starts the next one. */
  lemma AdjacentVariables(x: string, y: string, ctx: Context)
    requires forall k :: 0 <= k < |x| ==> IsVarChar(x[k])
    requires forall k :: 0 <= k < |y| ==> IsVarChar(y[k])
    ensures ParseTemplate(['&'] + x + ['&'] + y, ctx)
         == Ok(ConcatExpr([VarExpr(x, ctx), VarExpr(y, ctx)]))
  {
    var u, w := ['&'] + x, ['&'] + y;
    PiecesOfAdjacentVariables(x, y);
    ParseTemplateIsCompiledPieces(['&'] + x + ['&'] + y, ctx);
    AssembleTwo(VarRef(u), VarRef(w), ctx);
    VarPieceCompiles(u, ctx);
    VarPieceCompiles(w, ctx);
    assert u[1..] == x && w[1..] == y;
  }

  lemma PiecesOfCall(n: string)
    requires IsPlainName(n)
    ensures Pieces(['$'] + n + ['(', ')']) == [CallRef(['$'] + n + ['(', ')']), Literal([])]
  {
    var s := ['$'] + n + ['(', ')'];
    var j := 1 + |n|;
    var st0 := PieceScanStart.(inFunc := true, token := ['$']);
    assert PieceStep(s, 0, PieceScanStart) == st0;
    assert forall k :: 1 <= k < j ==> s[k] == n[k - 1];
    ScanCallNameSpan(s, 1, j, st0);
    assert s[1..j] == n;
    var st1 := st0.(token := ['$'] + n);
    assert s[j] == '(' && s[j + 1] == ')';
    var st2 := st1.(token := ['$'] + n + ['('], depth := 1);
    assert PieceStep(s, j, st1) == st2;
    assert st2.token + [')'] == s;
    var st3 := PieceScan([CallRef(s)], [], 0, false, false);
    assert PieceStep(s, j + 1, st2) == st3;
    assert PieceScanFrom(s, j + 2, st3) == st3;
    assert PieceScanFrom(s, j, st1) == st3;
  }

  /** `$n()` compiles to the call followed by an empty literal, so never to a bare call. */
  lemma CallTemplate(n: string, ctx: Context)
    requires IsPlainName(n)
    ensures ParseTemplate(['$'] + n + ['(', ')'], ctx)
         == Ok(ConcatExpr([FunctionExpr(ctx, n, []), StringExpr([])]))
  {
    var s := ['$'] + n + ['(', ')'];
    PiecesOfCall(n);
    ParseTemplateIsCompiledPieces(s, ctx);
    AssembleTwo(CallRef(s), Literal([]), ctx);
    CallPieceCompiles(s, ctx);
    CallWithoutArguments(n, ctx);
  }

  lemma PiecesOfUnterminatedCall(p: string, r: string)
    requires IsPlainText(p) && forall k :: 0 <= k < |r| ==> r[k] != ')'
    ensures Pieces(p + ['$'] + r) == (if p == [] then [] else [Literal(p)]) + [Literal(['$'] + r)]
  {
    var s := p + ['$'] + r;
    var i := |p|;
    assert s[0..i] == p;
    ScanPlainSpan(s, 0, i, PieceScanStart);
    var st0 := PieceScanStart.(token := PieceScanStart.token + p);
    assert PieceScanStart.token + p == p;
    assert s[i] == '$';
    var front := if p == [] then [] else [Literal(p)];
    var st1 := PieceScan(front, ['$'], 0, true, false);
    assert PieceStep(s, i, st0) == st1;
    assert forall k :: i + 1 <= k < |s| ==> s[k] == r[k - i - 1];
    ScanUnclosedCall(s, i + 1, st1);
    assert s[i + 1..] == r;
  }

  /** A call whose `)` never comes is not compiled: its text is the final literal. */
  lemma UnterminatedCallIsLiteral(p: string, r: string, ctx: Context)
    requires IsPlainText(p) && forall k :: 0 <= k < |r| ==> r[k] != ')'
    ensures ParseTemplate(p + ['$'] + r, ctx)
         == Ok(if p == [] then StringExpr(['$'] + r) else ConcatExpr([StringExpr(p), StringExpr(['$'] + r)]))
  {
    PiecesOfUnterminatedCall(p, r);
    ParseTemplateIsCompiledPieces(p + ['$'] + r, ctx);
    if p == [] {
      assert [] + [Literal(['$'] + r)] == [Literal(['$'] + r)];
      AssembleOne(Literal(['$'] + r), ctx);
    } else {
      assert [Literal(p)] + [Literal(['$'] + r)] == [Literal(p), Literal(['$'] + r)];
      AssembleTwo(Literal(p), Literal(['$'] + r), ctx);
    }
  }
}
