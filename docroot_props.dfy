/**
 * Properties of document roots: the folds are left folds over the components, and a compound
 * lookup answers from the last component that does not report the name undefined.
 */
module DocRootProperties {
  import opened Base
  import opened Contexts
  import opened TestPlan
  import opened TestPlanRoots
  import opened DocRoots

  /** The reference left fold: `f(...f(f(acc, xs[0]), xs[1])..., xs[|xs| - 1])`. */
  function FoldLeft<A, B>(f: (A, B) -> A, acc: A, xs: seq<B>): A
    decreases |xs|
  {
    if xs == [] then acc else FoldLeft(f, f(acc, xs[0]), xs[1..])
  }

  lemma {:induction false} FoldLeftSnoc<A, B>(f: (A, B) -> A, acc: A, xs: seq<B>, x: B)
    ensures FoldLeft(f, acc, xs + [x]) == f(FoldLeft(f, acc, xs), x)
    decreases |xs|
  {
    if xs == [] {
      assert [] + [x] == [x];
      assert [x][1..] == [];
    } else {
      assert (xs + [x])[1..] == xs[1..] + [x];
      FoldLeftSnoc(f, f(acc, xs[0]), xs[1..], x);
    }
  }

  function Ids(roots: seq<DocRoot>): (r: seq<Option<string>>)
    ensures |r| == |roots| && forall k :: 0 <= k < |roots| ==> r[k] == GetId(roots[k])
  {
    if roots == [] then [] else Ids(roots[..|roots| - 1]) + [GetId(roots[|roots| - 1])]
  }

  function Titles(roots: seq<DocRoot>): (r: seq<Option<string>>)
    ensures |r| == |roots| && forall k :: 0 <= k < |roots| ==> r[k] == GetTitle(roots[k])
  {
    if roots == [] then [] else Titles(roots[..|roots| - 1]) + [GetTitle(roots[|roots| - 1])]
  }

  function Parts(roots: seq<DocRoot>): (r: seq<seq<Section>>)
    ensures |r| == |roots| && forall k :: 0 <= k < |roots| ==> r[k] == GetParts(roots[k])
  {
    if roots == [] then [] else Parts(roots[..|roots| - 1]) + [GetParts(roots[|roots| - 1])]
  }

  lemma {:induction false} IdFoldPrefix(d: DocRoot, n: nat)
    requires d.CompoundRoot? && n <= |d.rest|
    ensures IdFold(d, n) == FoldLeft(d.policy.idMerger, GetId(d.first), Ids(d.rest[..n]))
  {
    if n == 0 {
      assert d.rest[..0] == [];
    } else {
      IdFoldPrefix(d, n - 1);
      assert Ids(d.rest[..n]) == Ids(d.rest[..n - 1]) + [GetId(d.rest[n - 1])] by {
        assert d.rest[..n][..n - 1] == d.rest[..n - 1];
      }
      FoldLeftSnoc(d.policy.idMerger, GetId(d.first), Ids(d.rest[..n - 1]), GetId(d.rest[n - 1]));
    }
  }

  lemma {:induction false} TitleFoldPrefix(d: DocRoot, n: nat)
    requires d.CompoundRoot? && n <= |d.rest|
    ensures TitleFold(d, n) == FoldLeft(d.policy.titleMerger, GetTitle(d.first), Titles(d.rest[..n]))
  {
    if n == 0 {
      assert d.rest[..0] == [];
    } else {
      TitleFoldPrefix(d, n - 1);
      assert Titles(d.rest[..n]) == Titles(d.rest[..n - 1]) + [GetTitle(d.rest[n - 1])] by {
        assert d.rest[..n][..n - 1] == d.rest[..n - 1];
      }
      FoldLeftSnoc(d.policy.titleMerger, GetTitle(d.first), Titles(d.rest[..n - 1]), GetTitle(d.rest[n - 1]));
    }
  }

  lemma {:induction false} PartsFoldPrefix(d: DocRoot, n: nat)
    requires d.CompoundRoot? && n <= |d.rest|
    ensures PartsFold(d, n) == FoldLeft(d.policy.partsMerger, GetParts(d.first), Parts(d.rest[..n]))
  {
    if n == 0 {
      assert d.rest[..0] == [];
    } else {
      PartsFoldPrefix(d, n - 1);
      assert Parts(d.rest[..n]) == Parts(d.rest[..n - 1]) + [GetParts(d.rest[n - 1])] by {
        assert d.rest[..n][..n - 1] == d.rest[..n - 1];
      }
      FoldLeftSnoc(d.policy.partsMerger, GetParts(d.first), Parts(d.rest[..n - 1]), GetParts(d.rest[n - 1]));
    }
  }

  /**
   * The id, title and parts of a compound root are the left folds of the policy's operators
   * over its components, seeded with the first component's value.
   */
  lemma CompoundIsLeftFold(d: DocRoot)
    requires d.CompoundRoot?
    ensures GetId(d) == FoldLeft(d.policy.idMerger, GetId(d.first), Ids(d.rest))
    ensures GetTitle(d) == FoldLeft(d.policy.titleMerger, GetTitle(d.first), Titles(d.rest))
    ensures GetParts(d) == FoldLeft(d.policy.partsMerger, GetParts(d.first), Parts(d.rest))
  {
    assert d.rest[..|d.rest|] == d.rest;
    IdFoldPrefix(d, |d.rest|);
    TitleFoldPrefix(d, |d.rest|);
    PartsFoldPrefix(d, |d.rest|);
  }

  /** Two roots: each getter is the policy's operator applied to (first, second). */
  lemma PairIsMerged(policy: MergePolicy, a: DocRoot, b: DocRoot)
    ensures GetId(CompoundRoot(policy, a, [b])) == policy.idMerger(GetId(a), GetId(b))
    ensures GetTitle(CompoundRoot(policy, a, [b])) == policy.titleMerger(GetTitle(a), GetTitle(b))
    ensures GetParts(CompoundRoot(policy, a, [b])) == policy.partsMerger(GetParts(a), GetParts(b))
  {
    var d := CompoundRoot(policy, a, [b]);
    assert IdFold(d, 0) == GetId(a);
    assert TitleFold(d, 0) == GetTitle(a);
    assert PartsFold(d, 0) == GetParts(a);
  }

  /** A blank root has no id, title or parts, and defines no variable and no function. */
  lemma BlankRootIsEmpty(key: string, name: string)
    ensures GetId(BlankRoot) == None && GetTitle(BlankRoot) == None && GetParts(BlankRoot) == []
    ensures RootVar(BlankRoot, key) == Err(Error(DoclerkFailure, UndefinedVarMessage(key)))
    ensures RootFunction(BlankRoot, name) == Err(Error(UndefinedFunction, UndefinedFunctionMessage("Undefined function: " + name)))
  {
  }

  // ---------------------------------------------------------------------------------------
  // Compound lookups

  /**
   * The reference search: the last outcome that `skip` does not pass over, or `missing` when
   * it passes over them all.
   */
  function SearchBack<T>(outs: seq<Result<T>>, skip: Result<T> -> bool, missing: Error): Result<T> {
    if outs == [] then Err(missing)
    else if skip(outs[|outs| - 1]) then SearchBack(outs[..|outs| - 1], skip, missing)
    else outs[|outs| - 1]
  }

  lemma SearchBackFindsLast<T>(outs: seq<Result<T>>, skip: Result<T> -> bool, missing: Error)
    ensures (forall i :: 0 <= i < |outs| ==> skip(outs[i])) ==> SearchBack(outs, skip, missing) == Err(missing)
    ensures forall j :: 0 <= j < |outs| && !skip(outs[j]) && (forall i :: j < i < |outs| ==> skip(outs[i])) ==>
              SearchBack(outs, skip, missing) == outs[j]
  {
    if forall i :: 0 <= i < |outs| ==> skip(outs[i]) {
      SearchBackMisses(outs, skip, missing);
    }
    forall j | 0 <= j < |outs| && !skip(outs[j]) && (forall i :: j < i < |outs| ==> skip(outs[i]))
      ensures SearchBack(outs, skip, missing) == outs[j]
    {
      SearchBackFinds(outs, skip, missing, j);
    }
  }

  lemma {:induction false} SearchBackMisses<T>(outs: seq<Result<T>>, skip: Result<T> -> bool, missing: Error)
    requires forall i :: 0 <= i < |outs| ==> skip(outs[i])
    ensures SearchBack(outs, skip, missing) == Err(missing)
  {
    if outs != [] {
      var init := outs[..|outs| - 1];
      assert forall i :: 0 <= i < |init| ==> init[i] == outs[i];
      SearchBackMisses(init, skip, missing);
    }
  }

  lemma {:induction false} SearchBackFinds<T>(outs: seq<Result<T>>, skip: Result<T> -> bool, missing: Error, j: nat)
    requires j < |outs| && !skip(outs[j]) && forall i :: j < i < |outs| ==> skip(outs[i])
    ensures SearchBack(outs, skip, missing) == outs[j]
  {
    if j < |outs| - 1 {
      var init := outs[..|outs| - 1];
      assert init[j] == outs[j];
      assert forall i :: j < i < |init| ==> init[i] == outs[i];
      SearchBackFinds(init, skip, missing, j);
    }
  }

  /** What each component answers for a variable, first to last. */
  function VarOutcomes(d: DocRoot, key: string): (r: seq<Result<Expr>>)
    requires d.CompoundRoot?
    ensures |r| == |d.rest| + 1 && forall i :: 0 <= i <= |d.rest| ==> r[i] == RootVar(Component(d, i), key)
  {
    seq(|d.rest| + 1, i requires 0 <= i <= |d.rest| => RootVar(Component(d, i), key))
  }

  function FunctionOutcomes(d: DocRoot, name: string): (r: seq<Result<Binding>>)
    requires d.CompoundRoot?
    ensures |r| == |d.rest| + 1 && forall i :: 0 <= i <= |d.rest| ==> r[i] == RootFunction(Component(d, i), name)
  {
    seq(|d.rest| + 1, i requires 0 <= i <= |d.rest| => RootFunction(Component(d, i), name))
  }

  lemma {:induction false} CompositeVarIsSearch(d: DocRoot, n: nat, key: string)
    requires d.CompoundRoot? && n <= |d.rest| + 1
    ensures CompositeVar(d, n, key) == SearchBack(VarOutcomes(d, key)[..n], VarUndefined, Error(UndefinedVariable, UndefinedVariableMessage(key)))
  {
    if n > 0 {
      CompositeVarIsSearch(d, n - 1, key);
      var outs := VarOutcomes(d, key);
      assert outs[..n][..n - 1] == outs[..n - 1];
      assert outs[..n][n - 1] == RootVar(Component(d, n - 1), key);
    }
  }

  lemma {:induction false} CompositeFunctionIsSearch(d: DocRoot, n: nat, name: string)
    requires d.CompoundRoot? && n <= |d.rest| + 1
    ensures CompositeFunction(d, n, name) == SearchBack(FunctionOutcomes(d, name)[..n], FunctionUndefined, Error(UndefinedFunction, UndefinedFunctionMessage(name)))
  {
    if n > 0 {
      CompositeFunctionIsSearch(d, n - 1, name);
      var outs := FunctionOutcomes(d, name);
      assert outs[..n][..n - 1] == outs[..n - 1];
      assert outs[..n][n - 1] == RootFunction(Component(d, n - 1), name);
    }
  }

  /**
   * The compound `getVar`: the components are tried from last to first, a component that
   * raises UndefinedVariableException is passed over, and the first other outcome (a value or
   * any other failure) is the answer; when every component passes, the name is undefined.
   */
  lemma CompositeVarIsLastDefined(d: DocRoot, key: string)
    requires d.CompoundRoot?
    ensures (forall i :: 0 <= i <= |d.rest| ==> VarUndefined(VarOutcomes(d, key)[i])) ==>
              RootVar(d, key) == Err(Error(UndefinedVariable, UndefinedVariableMessage(key)))
    ensures forall j :: 0 <= j <= |d.rest| && !VarUndefined(VarOutcomes(d, key)[j])
                        && (forall i :: j < i <= |d.rest| ==> VarUndefined(VarOutcomes(d, key)[i])) ==>
              RootVar(d, key) == VarOutcomes(d, key)[j]
    ensures RootVar(d, key) == SearchBack(VarOutcomes(d, key), VarUndefined, Error(UndefinedVariable, UndefinedVariableMessage(key)))
  {
    var outs := VarOutcomes(d, key);
    CompositeVarIsSearch(d, |d.rest| + 1, key);
    assert outs[..|d.rest| + 1] == outs;
    SearchBackFindsLast(outs, VarUndefined, Error(UndefinedVariable, UndefinedVariableMessage(key)));
  }

  /**
   * The compound `getFunction`, likewise with UndefinedFunctionException. When no component
   * defines the name, the fresh exception's message carries the prefix once.
   */
  lemma CompositeFunctionIsLastDefined(d: DocRoot, name: string)
    requires d.CompoundRoot?
    ensures (forall i :: 0 <= i <= |d.rest| ==> FunctionUndefined(FunctionOutcomes(d, name)[i])) ==>
              RootFunction(d, name) == Err(Error(UndefinedFunction, "Undefined function: " + name))
    ensures forall j :: 0 <= j <= |d.rest| && !FunctionUndefined(FunctionOutcomes(d, name)[j])
                        && (forall i :: j < i <= |d.rest| ==> FunctionUndefined(FunctionOutcomes(d, name)[i])) ==>
              RootFunction(d, name) == FunctionOutcomes(d, name)[j]
    ensures RootFunction(d, name) == SearchBack(FunctionOutcomes(d, name), FunctionUndefined, Error(UndefinedFunction, UndefinedFunctionMessage(name)))
  {
    var outs := FunctionOutcomes(d, name);
    CompositeFunctionIsSearch(d, |d.rest| + 1, name);
    assert outs[..|d.rest| + 1] == outs;
    SearchBackFindsLast(outs, FunctionUndefined, Error(UndefinedFunction, UndefinedFunctionMessage(name)));
  }

  /** True of the roots whose context is a MapContext. */
  predicate IsMapRoot(d: DocRoot) {
    d.BlankRoot? || d.PlanDocRoot?
  }

  /**
   * A MapContext reports a missing variable with a plain DoclerkException, which the compound
   * lookup does not pass over: a compound root whose last component is a blank or a plan root
   * answers every variable from that component alone.
   */
  lemma MapRootHidesEarlierVariables(d: DocRoot, key: string)
    requires d.CompoundRoot? && IsMapRoot(Component(d, |d.rest|))
    ensures RootVar(d, key) == RootVar(Component(d, |d.rest|), key)
    ensures RootVar(d, key).Err? ==> RootVar(d, key).error == Error(DoclerkFailure, UndefinedVarMessage(key))
  {
    var last := Component(d, |d.rest|);
    assert !VarUndefined(RootVar(last, key));
    CompositeVarIsLastDefined(d, key);
    assert VarOutcomes(d, key)[|d.rest|] == RootVar(last, key);
  }

  /** A blank or plan root reports a function undefined exactly when it holds no macro of that name. */
  lemma MapRootFunction(d: DocRoot, name: string)
    requires IsMapRoot(d)
    ensures FunctionUndefined(RootFunction(d, name)) <==> !(d.PlanDocRoot? && name in d.plan.macros)
    ensures d.PlanDocRoot? && name in d.plan.macros ==>
              RootFunction(d, name) == Ok(Binding(d.plan.macros[name], d.plan.ExpressionContext()))
  {
  }

  /**
   * Functions, unlike variables, fall back: among blank and plan components, the last one
   * holding a macro of the name provides it, bound to that root's context.
   */
  lemma LastMacroWins(d: DocRoot, name: string, j: nat)
    requires d.CompoundRoot? && j <= |d.rest|
    requires forall i :: 0 <= i <= |d.rest| ==> IsMapRoot(Component(d, i))
    requires Component(d, j).PlanDocRoot? && name in Component(d, j).plan.macros
    requires forall i :: j < i <= |d.rest| ==> !(Component(d, i).PlanDocRoot? && name in Component(d, i).plan.macros)
    ensures RootFunction(d, name) == Ok(Binding(Component(d, j).plan.macros[name], Component(d, j).plan.ExpressionContext()))
  {
    var outs := FunctionOutcomes(d, name);
    forall i | 0 <= i <= |d.rest| ensures FunctionUndefined(outs[i])
                                          <==> !(Component(d, i).PlanDocRoot? && name in Component(d, i).plan.macros) {
      MapRootFunction(Component(d, i), name);
    }
    CompositeFunctionIsLastDefined(d, name);
    MapRootFunction(Component(d, j), name);
  }
}
