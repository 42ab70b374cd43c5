/**
 * The command line: `Doclerk.call` runs every execution of the plan, feeding each module the
 * root composed so far and composing its output onto it, and counts the executions that
 * failed; `main` turns that count into an exit decision.
 *
 * Module discovery, file reading and the module's own `run` are outside this model: the
 * modules found arrive as a map from name to module object, and `run` is a parameter.
 */
module Cli {
  import opened Base
  import opened TestPlan
  import opened DocRoots
  import opened ModuleContexts
  import opened ExecutionPlans

  // ---------------------------------------------------------------------------------------
  // The merge policy of `call`

  /** Ids are joined with ",", a null id rendering as "null". */
  function MergeIds(a: Option<string>, b: Option<string>): Option<string> {
    Some(JavaString(a) + "," + JavaString(b))
  }

  /** Titles are joined with "-". */
  function MergeTitles(a: Option<string>, b: Option<string>): Option<string> {
    Some(JavaString(a) + "-" + JavaString(b))
  }

  /** `new LinkedHashSet<>(a)` followed by `addAll(b)`. */
  function MergeParts(a: seq<Section>, b: seq<Section>): seq<Section> {
    Dedup(a + b)
  }

  const Policy := MergePolicy(MergeIds, MergeTitles, MergeParts)

  // ---------------------------------------------------------------------------------------
  // The specification of `call`

  /**
   * What `call` relies on beyond the plan and the modules: the environment, system and
   * option contexts; `new HashMapModuleContext(parameters)`, which may fail; and each
   * module's `run`, which sees the module's name, its current context and the root composed
   * so far, and may return null.
   */
  datatype Runtime = Runtime(env: ModuleContext, sys: ModuleContext, opt: ModuleContext,
                             paramsContext: Option<seq<Entry>> -> Result<ModuleContext>,
                             run: (string, ModuleContext, DocRoot) -> Result<Option<DocRoot>>)

  function ModuleNotFound(name: string): Error {
    Error(DoclerkFailure, "Module not found: " + name)
  }

  /** The contexts every module execution pushes before its parameters, oldest first. */
  function RunLayers(rt: Runtime): seq<ModuleContext> {
    [rt.env, rt.sys, rt.opt]
  }

  /** `new CompoundDocRoot(policy, root, out)` on the outcome of `run`. */
  function Compose(root: DocRoot, out: Result<Option<DocRoot>>): Result<DocRoot> {
    if out.Err? then Err(out.error)
    else if out.value.None? then Err(Error(NullPointer, "secondRoot may not be null"))
    else Ok(CompoundRoot(Policy, root, [out.value.value]))
  }

  /** The module contexts, by module name, and the root so far or the failure that ended the execution. */
  datatype Progress = Progress(contexts: map<string, ModuleContext>, root: Result<DocRoot>)

  /**
   * One module execution on the root so far. The three run contexts are pushed before the
   * parameters' context is made, so they stay pushed when making it fails.
   */
  function Step(rt: Runtime, contexts: map<string, ModuleContext>, me: ModuleExecution, root: DocRoot): Progress {
    if me.name !in contexts then Progress(contexts, Err(ModuleNotFound(me.name)))
    else
      var pc := rt.paramsContext(me.params);
      if pc.Err? then Progress(contexts[me.name := Pushed(contexts[me.name], RunLayers(rt))], Err(pc.error))
      else
        var c := Pushed(contexts[me.name], RunLayers(rt) + [pc.value]);
        Progress(contexts[me.name := c], Compose(root, rt.run(me.name, c, root)))
  }

  /** The first `n` module executions of one execution, starting from a blank root. */
  function RunModules(rt: Runtime, contexts: map<string, ModuleContext>, mods: seq<ModuleExecution>, n: nat): Progress
    requires n <= |mods|
  {
    if n == 0 then Progress(contexts, Ok(BlankRoot))
    else
      var p := RunModules(rt, contexts, mods, n - 1);
      if p.root.Err? then p else Step(rt, p.contexts, mods[n - 1], p.root.value)
  }

  /** The module contexts and the number of failed executions, or the error `call` lets through. */
  datatype Tally = Tally(contexts: map<string, ModuleContext>, failures: Result<nat>)

  /** The first `n` executions of the plan. */
  function RunPlan(rt: Runtime, contexts: map<string, ModuleContext>, plan: seq<Execution>, n: nat): Tally
    requires n <= |plan|
  {
    if n == 0 then Tally(contexts, Ok(0))
    else
      var t := RunPlan(rt, contexts, plan, n - 1);
      if t.failures.Err? then t
      else
        var p := RunModules(rt, t.contexts, plan[n - 1].modules, |plan[n - 1].modules|);
        if p.root.Err? && !IsException(p.root.error) then Tally(p.contexts, Err(p.root.error))
        else Tally(p.contexts, Ok(t.failures.value + if p.root.Err? then 1 else 0))
  }

  lemma {:induction false} ModuleRunFailsEarly(rt: Runtime, contexts: map<string, ModuleContext>, mods: seq<ModuleExecution>, k: nat, n: nat)
    requires k <= n <= |mods| && RunModules(rt, contexts, mods, k).root.Err?
    ensures RunModules(rt, contexts, mods, n) == RunModules(rt, contexts, mods, k)
    decreases n - k
  {
    if k < n {
      ModuleRunFailsEarly(rt, contexts, mods, k, n - 1);
    }
  }

  lemma {:induction false} PlanFailsEarly(rt: Runtime, contexts: map<string, ModuleContext>, plan: seq<Execution>, k: nat, n: nat)
    requires k <= n <= |plan| && RunPlan(rt, contexts, plan, k).failures.Err?
    ensures RunPlan(rt, contexts, plan, n) == RunPlan(rt, contexts, plan, k)
    decreases n - k
  {
    if k < n {
      PlanFailsEarly(rt, contexts, plan, k, n - 1);
    }
  }

  // ---------------------------------------------------------------------------------------
  // `call`

  /** Different names name different module objects. */
  predicate DistinctModules(modules: map<string, Module>) {
    forall a, b :: a in modules && b in modules && a != b ==> modules[a] != modules[b]
  }

  /** The context each module holds, by name. */
  function ContextsOf(modules: map<string, Module>): map<string, ModuleContext>
    reads set m | m in modules.Values
  {
    map name | name in modules :: modules[name].context
  }

  /** The first three `withContext` calls of `call`: environment, system, options. */
  method WithRunContexts(mod: Module, rt: Runtime)
    modifies mod
    ensures mod.context == Pushed(old(mod.context), RunLayers(rt))
  {
    ghost var layers := RunLayers(rt);
    var _ := mod.WithContext(Some(rt.env));
    assert mod.context == Pushed(old(mod.context), layers[..1]) by {
      assert layers[..1][..0] == [];
    }
    var _ := mod.WithContext(Some(rt.sys));
    assert mod.context == Pushed(old(mod.context), layers[..2]) by {
      assert layers[..2][..1] == layers[..1];
    }
    var _ := mod.WithContext(Some(rt.opt));
    assert layers[..2] == layers[..|layers| - 1];
  }

  /** One module execution of `call`'s inner loop: the `withContext` chain, `run`, and the composition. */
  method RunModule(me: ModuleExecution, modules: map<string, Module>, rt: Runtime, docRoot: DocRoot) returns (r: Result<DocRoot>)
    requires DistinctModules(modules)
    modifies set m | m in modules.Values
    ensures var p := Step(rt, old(ContextsOf(modules)), me, docRoot);
            r == p.root && ContextsOf(modules) == p.contexts
  {
    if me.name !in modules {
      return Err(ModuleNotFound(me.name));
    }
    var mod := modules[me.name];
    ghost var before := ContextsOf(modules);
    WithRunContexts(mod, rt);
    var pc := rt.paramsContext(me.params);
    if pc.Err? {
      assert ContextsOf(modules) == before[me.name := mod.context] by {
        forall n | n in modules && n != me.name ensures modules[n].context == before[n] {
          assert modules[n] != mod;
        }
      }
      return Err(pc.error);
    }
    var _ := mod.WithContext(Some(pc.value));
    assert mod.context == Pushed(before[me.name], RunLayers(rt) + [pc.value]) by {
      assert (RunLayers(rt) + [pc.value])[..3] == RunLayers(rt);
    }
    assert ContextsOf(modules) == before[me.name := mod.context] by {
      forall n | n in modules && n != me.name ensures modules[n].context == before[n] {
        assert modules[n] != mod;
      }
    }
    var out := rt.run(me.name, mod.context, docRoot);
    if out.Err? {
      return Err(out.error);
    }
    var composed := NewCompound(Policy, Some(docRoot), out.value, Some([]));
    if composed.Ok? {
      assert composed.value.rest == [out.value.value];
    }
    return composed;
  }

  /** The inner loop of `call`: one execution's modules, each composed onto the root so far. */
  method RunExecution(mods: seq<ModuleExecution>, modules: map<string, Module>, rt: Runtime) returns (r: Result<DocRoot>)
    requires DistinctModules(modules)
    modifies set m | m in modules.Values
    ensures var p := RunModules(rt, old(ContextsOf(modules)), mods, |mods|);
            r == p.root && ContextsOf(modules) == p.contexts
  {
    ghost var start := ContextsOf(modules);
    var docRoot := BlankRoot;
    for j := 0 to |mods|
      invariant RunModules(rt, start, mods, j) == Progress(ContextsOf(modules), Ok(docRoot))
    {
      ghost var before := ContextsOf(modules);
      var next := RunModule(mods[j], modules, rt, docRoot);
      ModulesStep(rt, start, mods, j, before, docRoot);
      if next.Err? {
        ModuleRunFailsEarly(rt, start, mods, j + 1, |mods|);
        return next;
      }
      docRoot := next.value;
    }
    return Ok(docRoot);
  }

  /** One more module execution, after `j` of them left `contexts` and `root` behind. */
  lemma ModulesStep(rt: Runtime, start: map<string, ModuleContext>, mods: seq<ModuleExecution>, j: nat,
                    contexts: map<string, ModuleContext>, root: DocRoot)
    requires j < |mods| && RunModules(rt, start, mods, j) == Progress(contexts, Ok(root))
    ensures RunModules(rt, start, mods, j + 1) == Step(rt, contexts, mods[j], root)
  {
  }

  /**
   * `call()`: every execution starts from a blank root; an execution whose module chain throws
   * counts as failed and the next execution still runs. A failure that is not an Exception
   * (a stack overflow) ends `call` itself.
   */
  method Call(plan: seq<Execution>, modules: map<string, Module>, rt: Runtime) returns (r: Result<nat>)
    requires DistinctModules(modules)
    modifies set m | m in modules.Values
    ensures var t := RunPlan(rt, old(ContextsOf(modules)), plan, |plan|);
            r == t.failures && ContextsOf(modules) == t.contexts
  {
    ghost var start := ContextsOf(modules);
    var failCount := 0;
    for i := 0 to |plan|
      invariant RunPlan(rt, start, plan, i) == Tally(ContextsOf(modules), Ok(failCount))
    {
      ghost var before := ContextsOf(modules);
      var root := RunExecution(plan[i].modules, modules, rt);
      PlanStep(rt, start, plan, i, before, failCount);
      if root.Err? {
        if !IsException(root.error) {
          PlanFailsEarly(rt, start, plan, i + 1, |plan|);
          return Err(root.error);
        }
        failCount := failCount + 1;
      }
    }
    return Ok(failCount);
  }

  /** One more execution of the plan, after `i` of them left `failures` failed and `contexts` behind. */
  lemma PlanStep(rt: Runtime, start: map<string, ModuleContext>, plan: seq<Execution>, i: nat,
                 contexts: map<string, ModuleContext>, failures: nat)
    requires i < |plan| && RunPlan(rt, start, plan, i) == Tally(contexts, Ok(failures))
    ensures var p := RunModules(rt, contexts, plan[i].modules, |plan[i].modules|);
            RunPlan(rt, start, plan, i + 1)
            == if p.root.Err? && !IsException(p.root.error) then Tally(p.contexts, Err(p.root.error))
               else Tally(p.contexts, Ok(failures + if p.root.Err? then 1 else 0))
  {
  }

  // ---------------------------------------------------------------------------------------
  // `main`

  /** What `main` does once `call` has returned its exit code. */
  datatype ExitAction =
    | Raise(message: string)   // throws a DoclerkException
    | Report                   // logs the code and returns
    | Exit(status: int)        // System.exit

  /** The decision of `main` on the exit code and the `--no-exit` and `--no-fail` flags. */
  function ExitDecision(code: int, noExit: bool, noFail: bool): (a: ExitAction)
    ensures noExit ==> (a.Raise? <==> code != 0 && !noFail)
    ensures a.Raise? ==> a.message == "Exit code: " + IntToString(code)
    ensures noExit && !a.Raise? ==> a == Report
    ensures !noExit ==> a.Exit? && (noFail ==> a.status == 0) && (!noFail ==> a.status == code)
    ensures (a == Report || a == Exit(0)) <==> (code == 0 || noFail)
  {
    if noExit then
      if code != 0 && !noFail then Raise("Exit code: " + IntToString(code)) else Report
    else
      Exit(if noFail then 0 else code)
  }
}
