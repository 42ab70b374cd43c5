/**
 * Properties of the execution plan: one execution per plan entry and one module execution per
 * module entry, in order, with the fields each entry names.
 */
module ExecutionPlanProperties {
  import opened Base
  import opened ExecutionPlans

  lemma {:induction false} ModulesPrefix(items: seq<Yaml>, n: nat)
    requires n <= |items|
    ensures ReadModules(items, n).Ok? <==> forall k :: 0 <= k < n ==> ReadModule(items[k]).Ok?
    ensures ReadModules(items, n).Ok? ==>
              |ReadModules(items, n).value| == n
              && forall k :: 0 <= k < n ==> ReadModules(items, n).value[k] == ReadModule(items[k]).value
  {
    if n > 0 {
      ModulesPrefix(items, n - 1);
    }
  }

  /** A `modules` list reads as its entries read one by one, in order; it fails when one of them fails. */
  lemma ModulesAreEntriesInOrder(items: seq<Yaml>)
    ensures ReadModules(items, |items|).Ok? <==> forall k :: 0 <= k < |items| ==> ReadModule(items[k]).Ok?
    ensures ReadModules(items, |items|).Ok? ==>
              |ReadModules(items, |items|).value| == |items|
              && forall k :: 0 <= k < |items| ==> ReadModules(items, |items|).value[k] == ReadModule(items[k]).value
  {
    ModulesPrefix(items, |items|);
  }

  lemma {:induction false} ExecutionsPrefix(items: seq<Yaml>, n: nat)
    requires n <= |items|
    ensures ReadExecutions(items, n).Ok? <==> forall k :: 0 <= k < n ==> ReadExecution(items[k]).Ok?
    ensures ReadExecutions(items, n).Ok? ==>
              |ReadExecutions(items, n).value| == n
              && forall k :: 0 <= k < n ==> ReadExecutions(items, n).value[k] == ReadExecution(items[k]).value
  {
    if n > 0 {
      ExecutionsPrefix(items, n - 1);
    }
  }

  /** There is one execution per entry of `plan`, in plan order. */
  lemma ExecutionsAreEntriesInOrder(plan: seq<Yaml>, rest: seq<Entry>)
    requires Get(rest, "plan") == YList(plan)
    ensures ReadPlan(YMap(rest)).Ok? <==> forall k :: 0 <= k < |plan| ==> ReadExecution(plan[k]).Ok?
    ensures ReadPlan(YMap(rest)).Ok? ==>
              |ReadPlan(YMap(rest)).value| == |plan|
              && forall k :: 0 <= k < |plan| ==> ReadPlan(YMap(rest)).value[k] == ReadExecution(plan[k]).value
  {
    ExecutionsPrefix(plan, |plan|);
  }

  /** A null document, or one without `plan`, fails with a NullPointerException. */
  lemma MissingPlanFails(entries: seq<Entry>)
    ensures ReadPlan(YNull) == Err(NullPointerError)
    ensures Get(entries, "plan") == YNull ==> ReadPlan(YMap(entries)) == Err(NullPointerError)
  {
  }

  /**
   * An execution's id is the text of its `id` value, so the number 1 gives "1"; a missing
   * `modules` gives no module executions; a missing `id` fails.
   */
  lemma ExecutionFields(entries: seq<Entry>)
    ensures ReadExecution(YMap(entries)).Ok? ==>
              Get(entries, "id") != YNull && ReadExecution(YMap(entries)).value.id == Text(Get(entries, "id"))
    ensures Get(entries, "modules") == YNull && ReadExecution(YMap(entries)).Ok? ==>
              ReadExecution(YMap(entries)).value.modules == []
    ensures Get(entries, "id") == YNull ==> ReadExecution(YMap(entries)).Err?
  {
  }

  /** A module entry's name is the text of its `module` value, and its parameters are its `params` mapping. */
  lemma ModuleFields(entries: seq<Entry>)
    ensures ReadModule(YMap(entries)).Ok? <==> Get(entries, "module") != YNull && AsMap(Get(entries, "params")).Ok?
    ensures ReadModule(YMap(entries)).Ok? ==>
              ReadModule(YMap(entries)).value == ModuleExecution(Text(Get(entries, "module")), AsMap(Get(entries, "params")).value)
  {
  }

  /** The integer 1 renders as "1". */
  lemma OneIsRenderedAsDigit()
    ensures Text(YInt(1)) == "1"
  {
    assert NatToString(1) == ['1'];
  }

  /** The document of one execution with id 1 and two runs of the same module. */
  function SampleDocument(): Yaml {
    YMap([Entry("plan", YList([
      YMap([Entry("id", YInt(1)),
            Entry("modules", YList([
              YMap([Entry("module", YString("TestModule")),
                    Entry("params", YMap([Entry("param1", YString("val1")), Entry("param2", YString("val2"))]))]),
              YMap([Entry("module", YString("TestModule")),
                    Entry("params", YMap([Entry("param1", YString("val3")), Entry("param2", YString("val4"))]))])]))])]))])
  }

  /** The document reads as one execution "1" holding both module executions, in order. */
  lemma SamplePlan()
    ensures ReadPlan(SampleDocument()) ==
            Ok([Execution("1", [
              ModuleExecution("TestModule", Some([Entry("param1", YString("val1")), Entry("param2", YString("val2"))])),
              ModuleExecution("TestModule", Some([Entry("param1", YString("val3")), Entry("param2", YString("val4"))]))])])
  {
    OneIsRenderedAsDigit();
    var p1 := [Entry("param1", YString("val1")), Entry("param2", YString("val2"))];
    var p2 := [Entry("param1", YString("val3")), Entry("param2", YString("val4"))];
    var m1 := YMap([Entry("module", YString("TestModule")), Entry("params", YMap(p1))]);
    var m2 := YMap([Entry("module", YString("TestModule")), Entry("params", YMap(p2))]);
    assert ReadModule(m1) == Ok(ModuleExecution("TestModule", Some(p1))) by {
      assert Get(m1.entries, "module") == YString("TestModule");
      assert Get(m1.entries, "params") == YMap(p1);
    }
    assert ReadModule(m2) == Ok(ModuleExecution("TestModule", Some(p2))) by {
      assert Get(m2.entries, "module") == YString("TestModule");
      assert Get(m2.entries, "params") == YMap(p2);
    }
    var mods := [m1, m2];
    var none: seq<ModuleExecution> := [];
    assert ReadModules(mods, 1) == Ok([ModuleExecution("TestModule", Some(p1))]) by {
      assert ReadModules(mods, 0) == Ok(none);
      assert mods[0] == m1;
      assert none + [ModuleExecution("TestModule", Some(p1))] == [ModuleExecution("TestModule", Some(p1))];
    }
    assert ReadModules(mods, 2) == Ok([ModuleExecution("TestModule", Some(p1)), ModuleExecution("TestModule", Some(p2))]) by {
      assert mods[1] == m2;
      assert [ModuleExecution("TestModule", Some(p1))] + [ModuleExecution("TestModule", Some(p2))]
             == [ModuleExecution("TestModule", Some(p1)), ModuleExecution("TestModule", Some(p2))];
    }
    var ex := YMap([Entry("id", YInt(1)), Entry("modules", YList(mods))]);
    assert ReadExecution(ex) == Ok(Execution("1", [ModuleExecution("TestModule", Some(p1)), ModuleExecution("TestModule", Some(p2))])) by {
      assert Get(ex.entries, "modules") == YList(mods);
      assert Get(ex.entries, "id") == YInt(1);
    }
    assert Get(SampleDocument().entries, "plan") == YList([ex]);
    assert ReadExecutions([ex], 1) == Ok([Execution("1", [ModuleExecution("TestModule", Some(p1)), ModuleExecution("TestModule", Some(p2))])]) by {
      var noExecutions: seq<Execution> := [];
      assert ReadExecutions([ex], 0) == Ok(noExecutions);
      assert [ex][0] == ex;
      assert noExecutions + [Execution("1", [ModuleExecution("TestModule", Some(p1)), ModuleExecution("TestModule", Some(p2))])]
             == [Execution("1", [ModuleExecution("TestModule", Some(p1)), ModuleExecution("TestModule", Some(p2))])];
    }
  }
}
