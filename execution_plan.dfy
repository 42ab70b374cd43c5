/**
 * YamlExecutionPlan: the executions of a run, read from the already-loaded YAML document.
 *
 * The plan is a list of executions; each execution has an `id` and a list of `modules`, and
 * each module entry names a `module` and may carry `params`. The casts of the original are
 * unchecked: a value of the wrong shape fails where it is first used.
 */
module ExecutionPlans {
  import opened Base

  /**
   * A loaded YAML value. Mappings keep their entries in document order (SnakeYAML loads them
   * into a LinkedHashMap), and their keys are strings. The type admits a repeated key; a loaded
   * mapping has none (`DistinctKeys`), and `Get` reads the first entry with the key.
   */
  datatype Yaml =
    | YNull
    | YString(s: string)
    | YInt(i: int)
    | YBool(b: bool)
    | YList(items: seq<Yaml>)
    | YMap(entries: seq<Entry>)

  datatype Entry = Entry(key: string, value: Yaml)

  /** One module execution: the module's name and its parameter mapping (None when null). */
  datatype ModuleExecution = ModuleExecution(name: string, params: Option<seq<Entry>>)

  /** One execution: its id and its module executions, in order. */
  datatype Execution = Execution(id: string, modules: seq<ModuleExecution>)

  // ---------------------------------------------------------------------------------------
  // Access to loaded values

  /** `map.get(key)`: the value of the first entry with the key, null when there is none. */
  function Get(entries: seq<Entry>, key: string): Yaml {
    if entries == [] then YNull
    else if entries[0].key == key then entries[0].value
    else Get(entries[1..], key)
  }

  lemma {:induction false} GetIsFirstEntry(entries: seq<Entry>, key: string)
    ensures (forall k :: 0 <= k < |entries| ==> entries[k].key != key) ==> Get(entries, key) == YNull
    ensures forall k :: 0 <= k < |entries| && entries[k].key == key && (forall j :: 0 <= j < k ==> entries[j].key != key) ==>
              Get(entries, key) == entries[k].value
  {
    if entries != [] {
      GetIsFirstEntry(entries[1..], key);
      assert forall k :: 1 <= k < |entries| ==> entries[k] == entries[1..][k - 1];
    }
  }

  /** No two entries of a mapping share a key, as in a loaded `LinkedHashMap`. */
  predicate DistinctKeys(entries: seq<Entry>) {
    forall i, j :: 0 <= i < j < |entries| ==> entries[i].key != entries[j].key
  }

  /** On a mapping without repeated keys, `Get` finds every entry by its key. */
  lemma GetOfDistinctKeys(entries: seq<Entry>)
    requires DistinctKeys(entries)
    ensures forall k :: 0 <= k < |entries| ==> Get(entries, entries[k].key) == entries[k].value
  {
    forall k | 0 <= k < |entries|
      ensures Get(entries, entries[k].key) == entries[k].value
    {
      GetIsFirstEntry(entries, entries[k].key);
    }
  }

  /** The cast `(Map<...>) value`: null passes as null, a value that is not a mapping fails. */
  function AsMap(y: Yaml): (r: Result<Option<seq<Entry>>>)
    ensures y.YNull? ==> r == Ok(None)
    ensures y.YMap? ==> r == Ok(Some(y.entries))
    ensures !y.YNull? && !y.YMap? ==> r == Err(NotAMappingError)
  {
    match y
    case YNull => Ok(None)
    case YMap(entries) => Ok(Some(entries))
    case _ => Err(NotAMappingError)
  }

  /** The cast `(List<...>) value`. */
  function AsList(y: Yaml): (r: Result<Option<seq<Yaml>>>)
    ensures y.YNull? ==> r == Ok(None)
    ensures y.YList? ==> r == Ok(Some(y.items))
    ensures !y.YNull? && !y.YList? ==> r == Err(NotAListError)
  {
    match y
    case YNull => Ok(None)
    case YList(items) => Ok(Some(items))
    case _ => Err(NotAListError)
  }

  /** `String.valueOf(value)`: what `toString` gives for a loaded value, "null" for null. */
  function Text(y: Yaml): string
    decreases y, 1
  {
    match y
    case YNull => "null"
    case YString(s) => s
    case YInt(i) => IntToString(i)
    case YBool(b) => if b then "true" else "false"
    case YList(items) => "[" + ItemsText(y, |items|) + "]"
    case YMap(entries) => "{" + EntriesText(y, |entries|) + "}"
  }

  /** `AbstractCollection.toString`: the first `n` items, separated by ", ". */
  function ItemsText(y: Yaml, n: nat): string
    requires y.YList? && n <= |y.items|
    decreases y, 0, n
  {
    if n == 0 then ""
    else if n == 1 then Text(y.items[0])
    else ItemsText(y, n - 1) + ", " + Text(y.items[n - 1])
  }

  /** `AbstractMap.toString`: the first `n` entries as `key=value`, separated by ", ". */
  function EntriesText(y: Yaml, n: nat): string
    requires y.YMap? && n <= |y.entries|
    decreases y, 0, n
  {
    if n == 0 then ""
    else
      var e := y.entries[n - 1];
      var t := e.key + "=" + Text(e.value);
      if n == 1 then t else EntriesText(y, n - 1) + ", " + t
  }

  /** `value.toString()`: null fails. */
  function ToString(y: Yaml): (r: Result<string>)
    ensures y.YNull? ==> r == Err(NullPointerError)
    ensures !y.YNull? ==> r == Ok(Text(y))
  {
    if y.YNull? then Err(NullPointerError) else Ok(Text(y))
  }

  // ---------------------------------------------------------------------------------------
  // The plan

  /** One entry of a `modules` list: its `module` value's text, then its `params` mapping. */
  function ReadModule(y: Yaml): Result<ModuleExecution> {
    var m :- AsMap(y);
    if m.None? then Err(NullPointerError)
    else
      var name :- ToString(Get(m.value, "module"));
      var params :- AsMap(Get(m.value, "params"));
      Ok(ModuleExecution(name, params))
  }

  /** The module executions of the first `n` entries of a `modules` list. */
  function ReadModules(items: seq<Yaml>, n: nat): Result<seq<ModuleExecution>>
    requires n <= |items|
  {
    if n == 0 then Ok([])
    else
      var prefix :- ReadModules(items, n - 1);
      var m :- ReadModule(items[n - 1]);
      Ok(prefix + [m])
  }

  /** One entry of the `plan` list: its modules (none when `modules` is missing), then its id. */
  function ReadExecution(y: Yaml): Result<Execution> {
    var e :- AsMap(y);
    if e.None? then Err(NullPointerError)
    else
      var modules :- AsList(Get(e.value, "modules"));
      var mods :- if modules.None? then Ok([]) else ReadModules(modules.value, |modules.value|);
      var id :- ToString(Get(e.value, "id"));
      Ok(Execution(id, mods))
  }

  function ReadExecutions(items: seq<Yaml>, n: nat): Result<seq<Execution>>
    requires n <= |items|
  {
    if n == 0 then Ok([])
    else
      var prefix :- ReadExecutions(items, n - 1);
      var e :- ReadExecution(items[n - 1]);
      Ok(prefix + [e])
  }

  /** The executions of a loaded document: a null document or a missing `plan` fails. */
  function ReadPlan(root: Yaml): Result<seq<Execution>> {
    var r :- AsMap(root);
    if r.None? then Err(NullPointerError)
    else
      var plan :- AsList(Get(r.value, "plan"));
      if plan.None? then Err(NullPointerError) else ReadExecutions(plan.value, |plan.value|)
  }

  lemma {:induction false} ModulesFailEarly(items: seq<Yaml>, k: nat, n: nat)
    requires k <= n <= |items| && ReadModules(items, k).Err?
    ensures ReadModules(items, n) == ReadModules(items, k)
    decreases n - k
  {
    if k < n {
      ModulesFailEarly(items, k, n - 1);
    }
  }

  lemma {:induction false} ExecutionsFailEarly(items: seq<Yaml>, k: nat, n: nat)
    requires k <= n <= |items| && ReadExecutions(items, k).Err?
    ensures ReadExecutions(items, n) == ReadExecutions(items, k)
    decreases n - k
  {
    if k < n {
      ExecutionsFailEarly(items, k, n - 1);
    }
  }

  /** The module loop of one execution. */
  method ReadModuleList(items: seq<Yaml>) returns (r: Result<seq<ModuleExecution>>)
    ensures r.Ok? ==> |r.value| == |items|
    ensures r == ReadModules(items, |items|)
  {
    var modExecs: seq<ModuleExecution> := [];
    for i := 0 to |items|
      invariant ReadModules(items, i) == Ok(modExecs)
      invariant |modExecs| == i
    {
      var m := ReadModule(items[i]);
      if m.Err? {
        ModulesFailEarly(items, i + 1, |items|);
        return Err(m.error);
      }
      modExecs := modExecs + [m.value];
    }
    return Ok(modExecs);
  }

  /** The body of the plan loop: the module loop of one entry, then its id. */
  method ReadPlanEntry(y: Yaml) returns (r: Result<Execution>)
    ensures r == ReadExecution(y)
  {
    var e := AsMap(y);
    if e.Err? {
      return Err(e.error);
    }
    if e.value.None? {
      return Err(NullPointerError);
    }
    var modules := AsList(Get(e.value.value, "modules"));
    if modules.Err? {
      return Err(modules.error);
    }
    var modExecs: seq<ModuleExecution> := [];
    if modules.value.Some? {
      var m := ReadModuleList(modules.value.value);
      if m.Err? {
        return Err(m.error);
      }
      modExecs := m.value;
    }
    var id := ToString(Get(e.value.value, "id"));
    if id.Err? {
      return Err(id.error);
    }
    return Ok(Execution(id.value, modExecs));
  }

  /** `new YamlExecutionPlan(reader)` from the loaded document: the loop over the plan entries. */
  method NewExecutionPlan(root: Yaml) returns (r: Result<seq<Execution>>)
    ensures r == ReadPlan(root)
  {
    var rootMap := AsMap(root);
    if rootMap.Err? {
      return Err(rootMap.error);
    }
    if rootMap.value.None? {
      return Err(NullPointerError);
    }
    var plan := AsList(Get(rootMap.value.value, "plan"));
    if plan.Err? {
      return Err(plan.error);
    }
    if plan.value.None? {
      return Err(NullPointerError);
    }
    var items := plan.value.value;
    var executions: seq<Execution> := [];
    for i := 0 to |items|
      invariant ReadExecutions(items, i) == Ok(executions)
    {
      var e := ReadPlanEntry(items[i]);
      if e.Err? {
        ExecutionsFailEarly(items, i + 1, |items|);
        return Err(e.error);
      }
      executions := executions + [e.value];
    }
    return Ok(executions);
  }
}
