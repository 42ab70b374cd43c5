/**
 * Properties of the command line's `call`: the failure count, unknown modules, how module
 * outputs compose, and the module contexts that accumulate from one execution to the next.
 */
module CliProperties {
  import opened Base
  import opened TestPlan
  import opened DocRoots
  import opened DocRootProperties
  import opened ModuleContexts
  import opened ExecutionPlans
  import opened Cli

  /** `call` never counts more failures than there are executions. */
  lemma {:induction false} FailuresAtMostExecutions(rt: Runtime, contexts: map<string, ModuleContext>, plan: seq<Execution>, n: nat)
    requires n <= |plan|
    ensures RunPlan(rt, contexts, plan, n).failures.Ok? ==> RunPlan(rt, contexts, plan, n).failures.value <= n
  {
    if n > 0 {
      FailuresAtMostExecutions(rt, contexts, plan, n - 1);
    }
  }

  /**
   * An execution whose first module is unknown fails without touching any module context, and
   * the executions after it still run: when every execution starts with an unknown module,
   * every execution is counted as failed.
   */
  lemma {:induction false} UnknownModulesFail(rt: Runtime, contexts: map<string, ModuleContext>, plan: seq<Execution>, n: nat)
    requires n <= |plan|
    requires forall i :: 0 <= i < |plan| ==> plan[i].modules != [] && plan[i].modules[0].name !in contexts
    ensures RunPlan(rt, contexts, plan, n) == Tally(contexts, Ok(n))
  {
    if n > 0 {
      UnknownModulesFail(rt, contexts, plan, n - 1);
      var mods := plan[n - 1].modules;
      ModulesStep(rt, contexts, mods, 0, contexts, BlankRoot);
      assert RunModules(rt, contexts, mods, 1) == Progress(contexts, Err(ModuleNotFound(mods[0].name)));
      ModuleRunFailsEarly(rt, contexts, mods, 1, |mods|);
      PlanStep(rt, contexts, plan, n - 1, contexts, n - 1);
    }
  }

  /** A failure that is not an Exception ends `call` with that failure, whatever comes after. */
  lemma NonExceptionEndsCall(rt: Runtime, contexts: map<string, ModuleContext>, plan: seq<Execution>, k: nat)
    requires k < |plan| && RunPlan(rt, contexts, plan, k).failures.Ok?
    requires var p := RunModules(rt, RunPlan(rt, contexts, plan, k).contexts, plan[k].modules, |plan[k].modules|);
             p.root.Err? && !IsException(p.root.error)
    ensures RunPlan(rt, contexts, plan, |plan|).failures ==
            Err(RunModules(rt, RunPlan(rt, contexts, plan, k).contexts, plan[k].modules, |plan[k].modules|).root.error)
  {
    PlanFailsEarly(rt, contexts, plan, k + 1, |plan|);
  }

  /**
   * The root after a module execution: the previous root composed with the module's output.
   * Ids join with ",", titles with "-", a null one rendering as "null"; parts are the
   * previous parts followed by the output's parts not already present.
   */
  lemma ComposedRoot(root: DocRoot, o: DocRoot)
    ensures Compose(root, Ok(Some(o))).Ok?
    ensures var d := Compose(root, Ok(Some(o))).value;
            GetId(d) == Some(JavaString(GetId(root)) + "," + JavaString(GetId(o)))
            && GetTitle(d) == Some(JavaString(GetTitle(root)) + "-" + JavaString(GetTitle(o)))
            && GetParts(d) == Dedup(GetParts(root) + GetParts(o))
  {
    PairIsMerged(Policy, root, o);
  }

  /** The first module of an execution builds on a blank root, whose null id renders as "null". */
  lemma FirstCompositeId(o: DocRoot)
    ensures GetId(Compose(BlankRoot, Ok(Some(o))).value) == Some("null," + JavaString(GetId(o)))
    ensures GetTitle(Compose(BlankRoot, Ok(Some(o))).value) == Some("null-" + JavaString(GetTitle(o)))
  {
    ComposedRoot(BlankRoot, o);
    var i, t := JavaString(GetId(o)), JavaString(GetTitle(o));
    assert JavaString(GetId(BlankRoot)) == "null" && JavaString(GetTitle(BlankRoot)) == "null";
    assert "null" + "," + i == "null," + i;
    assert "null" + "-" + t == "null-" + t;
  }

  /**
   * Parts merge as an insertion-ordered union: exactly the parts of both sides, none twice,
   * and a left side without repetitions comes first, unchanged.
   */
  lemma PartsAreOrderedUnion(a: seq<Section>, b: seq<Section>)
    ensures forall x :: x in MergeParts(a, b) <==> x in a || x in b
    ensures Distinct(MergeParts(a, b))
    ensures Distinct(a) ==> |a| <= |MergeParts(a, b)| && MergeParts(a, b)[..|a|] == a
  {
    if Distinct(a) {
      DedupOfDistinct(a);
      DedupExtends(a, b);
    }
  }

  /**
   * A module output's variables shadow the previous root's: the composed root answers from
   * the output unless the output reports the variable undefined, then from the previous root.
   */
  lemma OutputShadowsRoot(root: DocRoot, o: DocRoot, key: string)
    ensures var d := Compose(root, Ok(Some(o))).value;
            RootVar(d, key) == if !VarUndefined(RootVar(o, key)) then RootVar(o, key)
                               else if !VarUndefined(RootVar(root, key)) then RootVar(root, key)
                               else Err(Error(UndefinedVariable, UndefinedVariableMessage(key)))
  {
    var d := Compose(root, Ok(Some(o))).value;
    assert d.rest == [o] && d.first == root;
    assert CompositeVar(d, 1, key) == if VarUndefined(RootVar(root, key)) then CompositeVar(d, 0, key) else RootVar(root, key);
    assert CompositeVar(d, 2, key) == if VarUndefined(RootVar(o, key)) then CompositeVar(d, 1, key) else RootVar(o, key);
  }

  /**
   * Each module execution pushes env, sys, options and parameters onto its module's context,
   * so the parameters win over the three run contexts, which win over what the module held.
   */
  lemma ParametersWin(rt: Runtime, contexts: map<string, ModuleContext>, me: ModuleExecution, root: DocRoot, key: string)
    requires me.name in contexts && rt.paramsContext(me.params).Ok?
    ensures var c := Step(rt, contexts, me, root).contexts;
            var pc := rt.paramsContext(me.params).value;
            me.name in c
            && GetValue(c[me.name], key) ==
               if GetValue(pc, key).Some? then GetValue(pc, key)
               else if GetValue(rt.opt, key).Some? then GetValue(rt.opt, key)
               else if GetValue(rt.sys, key).Some? then GetValue(rt.sys, key)
               else if GetValue(rt.env, key).Some? then GetValue(rt.env, key)
               else GetValue(contexts[me.name], key)
  {
    var pc := rt.paramsContext(me.params).value;
    var layers := RunLayers(rt) + [pc];
    NewestLayerWins(contexts[me.name], layers, key);
    assert layers[3] == pc && layers[2] == rt.opt && layers[1] == rt.sys && layers[0] == rt.env;
  }

  /**
   * The same module object serves every execution, so the parameters one execution gives a
   * module stay in its context for the executions after it: a key only the first
   * execution's parameters define is still defined after the second.
   */
  lemma ParametersLeakAcrossExecutions(rt: Runtime, contexts: map<string, ModuleContext>, name: string,
                                       first: ModuleExecution, second: ModuleExecution, id1: string, id2: string,
                                       key: string, v: string)
    requires name in contexts && first.name == name && second.name == name
    requires rt.paramsContext(first.params).Ok? && GetValue(rt.paramsContext(first.params).value, key) == Some(v)
    requires rt.paramsContext(second.params).Ok? && GetValue(rt.paramsContext(second.params).value, key).None?
    requires GetValue(rt.env, key).None? && GetValue(rt.sys, key).None? && GetValue(rt.opt, key).None?
    ensures var t := RunPlan(rt, contexts, [Execution(id1, [first]), Execution(id2, [second])], 2);
            name in t.contexts && GetValue(t.contexts[name], key) == Some(v)
  {
    var plan := [Execution(id1, [first]), Execution(id2, [second])];
    ParametersWin(rt, contexts, first, BlankRoot, key);
    var t1 := RunPlan(rt, contexts, plan, 1);
    assert plan[0].modules == [first] && plan[1].modules == [second];
    assert RunModules(rt, contexts, [first], 1) == Step(rt, contexts, first, BlankRoot);
    assert RunPlan(rt, contexts, plan, 0) == Tally(contexts, Ok(0));
    assert t1.contexts == Step(rt, contexts, first, BlankRoot).contexts;
    if t1.failures.Ok? {
      ParametersWin(rt, t1.contexts, second, BlankRoot, key);
      assert RunModules(rt, t1.contexts, [second], 1) == Step(rt, t1.contexts, second, BlankRoot);
      assert RunPlan(rt, contexts, plan, 2).contexts == Step(rt, t1.contexts, second, BlankRoot).contexts;
    }
  }
}
