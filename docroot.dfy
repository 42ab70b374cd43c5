/**
 * Document roots: BlankDocRoot, the test-plan root, and CompoundDocRoot, which composes two or
 * more roots under a merge policy.
 *
 * The parts of a root are its sections. A compound root folds the ids, titles and parts of
 * its components from first to last, and answers a variable or function lookup from the
 * last component that does not report the name undefined.
 */
module DocRoots {
  import opened Base
  import opened Contexts
  import opened TestPlan
  import opened TestPlanRoots

  /** DocRootMergePolicy: three binary operators, each applied to (current, other). */
  datatype MergePolicy = MergePolicy(
    idMerger: (Option<string>, Option<string>) -> Option<string>,
    titleMerger: (Option<string>, Option<string>) -> Option<string>,
    partsMerger: (seq<Section>, seq<Section>) -> seq<Section>)

  /**
   * A document root. A compound root keeps its components in argument order: `first`, then
   * `rest`, which is the second root followed by the others.
   */
  datatype DocRoot =
    | BlankRoot
    | PlanDocRoot(plan: PlanRoot)
    | CompoundRoot(policy: MergePolicy, first: DocRoot, rest: seq<DocRoot>)

  /** The i-th component of a compound root. */
  function Component(d: DocRoot, i: nat): DocRoot
    requires d.CompoundRoot? && i <= |d.rest|
  {
    if i == 0 then d.first else d.rest[i - 1]
  }

  /** The message of an `UndefinedVariableException`; that class is not part of this model. */
  function UndefinedVariableMessage(key: string): string {
    "Undefined variable: " + key
  }

  // ---------------------------------------------------------------------------------------
  // Construction

  /**
   * `new CompoundDocRoot(policy, firstRoot, secondRoot, otherRoots...)`: every root must be
   * non-null, and they are kept in argument order.
   */
  method NewCompound(policy: MergePolicy, first: Option<DocRoot>, second: Option<DocRoot>,
                     others: Option<seq<Option<DocRoot>>>) returns (r: Result<DocRoot>)
    ensures first.None? ==> r == Err(Error(NullPointer, "firstRoot may not be null"))
    ensures first.Some? && second.None? ==> r == Err(Error(NullPointer, "secondRoot may not be null"))
    ensures first.Some? && second.Some? && others.None? ==> r == Err(Error(NullPointer, "otherRoots may not be null"))
    ensures first.Some? && second.Some? && others.Some? ==>
              (r.Err? <==> exists k :: 0 <= k < |others.value| && others.value[k].None?)
              && (r.Err? ==> r.error == Error(NullPointer, "otherRoots may not contain null reference"))
    ensures r.Ok? ==> r.value.CompoundRoot? && r.value.policy == policy && r.value.first == first.value
                      && |r.value.rest| == |others.value| + 1 && r.value.rest[0] == second.value
                      && forall k :: 0 <= k < |others.value| ==> others.value[k] == Some(r.value.rest[k + 1])
  {
    if first.None? {
      return Err(Error(NullPointer, "firstRoot may not be null"));
    }
    if second.None? {
      return Err(Error(NullPointer, "secondRoot may not be null"));
    }
    if others.None? {
      return Err(Error(NullPointer, "otherRoots may not be null"));
    }
    var os := others.value;
    var rest := [second.value];
    for i := 0 to |os|
      invariant |rest| == i + 1 && rest[0] == second.value
      invariant forall k :: 0 <= k < i ==> os[k] == Some(rest[k + 1])
    {
      if os[i].None? {
        return Err(Error(NullPointer, "otherRoots may not contain null reference"));
      }
      rest := rest + [os[i].value];
    }
    return Ok(CompoundRoot(policy, first.value, rest));
  }

  // ---------------------------------------------------------------------------------------
  // Ids, titles and parts

  /** `getId()`: null for a blank root and for a plan root, whose id is never assigned. */
  function GetId(d: DocRoot): Option<string>
    decreases d, 2
  {
    match d
    case BlankRoot => None
    case PlanDocRoot(_) => None
    case CompoundRoot(_, _, rest) => IdFold(d, |rest|)
  }

  /** The id after merging the first `n` components of `rest` into the first component's id. */
  function IdFold(d: DocRoot, n: nat): Option<string>
    requires d.CompoundRoot? && n <= |d.rest|
    decreases d, 1, n
  {
    if n == 0 then GetId(d.first) else d.policy.idMerger(IdFold(d, n - 1), GetId(d.rest[n - 1]))
  }

  /** `getTitle()`: null for a blank root, the raw title of a plan root. */
  function GetTitle(d: DocRoot): Option<string>
    decreases d, 2
  {
    match d
    case BlankRoot => None
    case PlanDocRoot(p) => p.title
    case CompoundRoot(_, _, rest) => TitleFold(d, |rest|)
  }

  function TitleFold(d: DocRoot, n: nat): Option<string>
    requires d.CompoundRoot? && n <= |d.rest|
    decreases d, 1, n
  {
    if n == 0 then GetTitle(d.first) else d.policy.titleMerger(TitleFold(d, n - 1), GetTitle(d.rest[n - 1]))
  }

  /** `getParts()`: empty for a blank root, the sections of a plan root. */
  function GetParts(d: DocRoot): seq<Section>
    decreases d, 2
  {
    match d
    case BlankRoot => []
    case PlanDocRoot(p) => p.sections
    case CompoundRoot(_, _, rest) => PartsFold(d, |rest|)
  }

  function PartsFold(d: DocRoot, n: nat): seq<Section>
    requires d.CompoundRoot? && n <= |d.rest|
    decreases d, 1, n
  {
    if n == 0 then GetParts(d.first) else d.policy.partsMerger(PartsFold(d, n - 1), GetParts(d.rest[n - 1]))
  }

  /** The `getId` loop of a compound root. */
  method CompoundId(d: DocRoot) returns (id: Option<string>)
    requires d.CompoundRoot?
    ensures id == GetId(d)
  {
    id := GetId(d.first);
    for i := 0 to |d.rest|
      invariant id == IdFold(d, i)
    {
      id := d.policy.idMerger(id, GetId(d.rest[i]));
    }
  }

  /** The `getTitle` loop of a compound root. */
  method CompoundTitle(d: DocRoot) returns (title: Option<string>)
    requires d.CompoundRoot?
    ensures title == GetTitle(d)
  {
    title := GetTitle(d.first);
    for i := 0 to |d.rest|
      invariant title == TitleFold(d, i)
    {
      title := d.policy.titleMerger(title, GetTitle(d.rest[i]));
    }
  }

  /** The `getParts` loop of a compound root. */
  method CompoundParts(d: DocRoot) returns (parts: seq<Section>)
    requires d.CompoundRoot?
    ensures parts == GetParts(d)
  {
    parts := GetParts(d.first);
    for i := 0 to |d.rest|
      invariant parts == PartsFold(d, i)
    {
      parts := d.policy.partsMerger(parts, GetParts(d.rest[i]));
    }
  }

  // ---------------------------------------------------------------------------------------
  // Lookups

  /** The context of a blank root: no parent, no variables, no functions. */
  const BlankContext := MapContext(NoContext, Some(map[]), Some(map[]))

  /** True of the failures the compound lookup passes over. */
  predicate VarUndefined(r: Result<Expr>) {
    r.Err? && r.error.kind == UndefinedVariable
  }

  predicate FunctionUndefined(r: Result<Binding>) {
    r.Err? && r.error.kind == UndefinedFunction
  }

  /** `getExpressionContext().getVar(key)`. */
  function RootVar(d: DocRoot, key: string): Result<Expr>
    decreases d, 2
  {
    match d
    case BlankRoot => GetVar(BlankContext, key)
    case PlanDocRoot(p) => GetVar(p.ExpressionContext(), key)
    case CompoundRoot(_, _, rest) => CompositeVar(d, |rest| + 1, key)
  }

  /** The compound lookup over components `n - 1` down to 0. */
  function CompositeVar(d: DocRoot, n: nat, key: string): Result<Expr>
    requires d.CompoundRoot? && n <= |d.rest| + 1
    decreases d, 1, n
  {
    if n == 0 then Err(Error(UndefinedVariable, UndefinedVariableMessage(key)))
    else
      var c := if n == 1 then RootVar(d.first, key) else RootVar(d.rest[n - 2], key);
      if VarUndefined(c) then CompositeVar(d, n - 1, key) else c
  }

  /** `getExpressionContext().getFunction(name)`. */
  function RootFunction(d: DocRoot, name: string): Result<Binding>
    decreases d, 2
  {
    match d
    case BlankRoot => GetFunction(BlankContext, name)
    case PlanDocRoot(p) => GetFunction(p.ExpressionContext(), name)
    case CompoundRoot(_, _, rest) => CompositeFunction(d, |rest| + 1, name)
  }

  function CompositeFunction(d: DocRoot, n: nat, name: string): Result<Binding>
    requires d.CompoundRoot? && n <= |d.rest| + 1
    decreases d, 1, n
  {
    if n == 0 then Err(Error(UndefinedFunction, UndefinedFunctionMessage(name)))
    else
      var c := if n == 1 then RootFunction(d.first, name) else RootFunction(d.rest[n - 2], name);
      if FunctionUndefined(c) then CompositeFunction(d, n - 1, name) else c
  }

  /** The reverse `ListIterator` loop of the compound `getVar`. */
  method CompoundVar(d: DocRoot, key: string) returns (r: Result<Expr>)
    requires d.CompoundRoot?
    ensures r == RootVar(d, key)
  {
    var i := |d.rest| + 1;
    while i > 0
      invariant 0 <= i <= |d.rest| + 1
      invariant CompositeVar(d, i, key) == RootVar(d, key)
    {
      var c := if i == 1 then RootVar(d.first, key) else RootVar(d.rest[i - 2], key);
      if !VarUndefined(c) {
        return c;
      }
      i := i - 1;
    }
    return Err(Error(UndefinedVariable, UndefinedVariableMessage(key)));
  }

  /** The reverse `ListIterator` loop of the compound `getFunction`. */
  method CompoundFunction(d: DocRoot, name: string) returns (r: Result<Binding>)
    requires d.CompoundRoot?
    ensures r == RootFunction(d, name)
  {
    var i := |d.rest| + 1;
    while i > 0
      invariant 0 <= i <= |d.rest| + 1
      invariant CompositeFunction(d, i, name) == RootFunction(d, name)
    {
      var c := if i == 1 then RootFunction(d.first, name) else RootFunction(d.rest[i - 2], name);
      if !FunctionUndefined(c) {
        return c;
      }
      i := i - 1;
    }
    return Err(Error(UndefinedFunction, UndefinedFunctionMessage(name)));
  }
}
