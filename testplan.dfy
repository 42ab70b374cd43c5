/**
 * The parts of a test plan below the sections: step references (TestPlanStepReference),
 * inline steps (TestPlanYamlStep) and scenarios (TestPlanYamlScenario).
 *
 * Sections are reduced to their id and compiled title, which is all a step reference asks of
 * them; reading a section's scenarios from its folder is not part of this model.
 */
module TestPlan {
  import opened Base
  import opened Contexts
  import opened Template
  import opened Evaluation

  /** The step-reference marker, a single character. */
  const Marker: char := '§'

  /** A section of the plan, as a step reference sees it: its id and its compiled title. */
  datatype Section = Section(id: string, title: Expr)

  /** What `"".substring(1)` throws. */
  const EmptyReferenceError := Error(StringIndexOutOfBounds, "begin 1, end 0, length 0")

  // ---------------------------------------------------------------------------------------
  // TestPlanStepReference

  datatype StepReference = StepReference(id: Option<string>, sectionId: string, scenarioId: string,
                                         stepId: Option<string>)

  /** The arguments the title of a reference hands to its message formatter. */
  datatype ReferenceTitle = ReferenceTitle(sectionTitle: string, scenarioId: string)

  /** The arguments the description of a reference hands to its message formatters. */
  datatype ReferenceDescription = ReferenceDescription(sectionTitle: string, scenarioId: string,
                                                       stepId: Option<string>)

  /** The index of the first `c` in `s`, if any. */
  function IndexOf(s: string, c: char): (r: Option<nat>)
    ensures r.Some? ==> r.value < |s| && s[r.value] == c && c !in s[..r.value]
    ensures r.None? ==> c !in s
  {
    if s == [] then None
    else if s[0] == c then Some(0)
    else match IndexOf(s[1..], c)
      case None => None
      case Some(k) => assert s[..k + 1] == [s[0]] + s[1..][..k]; Some(k + 1)
  }

  /** The fields joined back together with `c` between them. */
  function JoinWith(fields: seq<string>, c: char): string
    requires fields != []
  {
    if |fields| == 1 then fields[0] else fields[0] + [c] + JoinWith(fields[1..], c)
  }

  /**
   * `s.split(c, limit)` for a single ordinary character `c` and a positive limit: at most
   * `limit - 1` cuts at the first occurrences of `c`; the last field keeps the rest of the text,
   * further `c`s and trailing empty fields included.
   */
  function Split(s: string, c: char, limit: nat): (r: seq<string>)
    requires limit >= 1
    ensures 1 <= |r| <= limit
    ensures JoinWith(r, c) == s
    ensures forall k :: 0 <= k < |r| - 1 ==> c !in r[k]
    ensures |r| < limit ==> c !in r[|r| - 1]
    decreases |s|
  {
    if limit == 1 then [s]
    else match IndexOf(s, c)
      case None => [s]
      case Some(i) =>
        assert s == s[..i] + [c] + s[i + 1..];
        [s[..i]] + Split(s[i + 1..], c, limit - 1)
  }

  /** `new TestPlanStepReference(parent, id, reference)`. */
  function ParseReference(reference: string, id: Option<string>): Result<StepReference> {
    if reference == [] then Err(EmptyReferenceError)
    else
      var refs := Split(reference[1..], Marker, 3);
      if |refs| > 1 then Ok(StepReference(id, refs[0], refs[1], if |refs| > 2 then Some(refs[2]) else None))
      else Err(Error(IllegalArgument, "invalid reference: " + reference))
  }

  /** The text of a reference: the marker, then the fields separated by markers. */
  function ReferenceText(r: StepReference): string {
    [Marker] + r.sectionId + [Marker] + r.scenarioId + (if r.stepId.Some? then [Marker] + r.stepId.value else [])
  }

  /**
   * `getSectionTitle(id)`: the evaluated title of the first section with that id, or
   * "Undefined section: " + id when there is none. A title that evaluates to null is the
   * NullPointerException of `findFirst`.
   */
  function SectionTitle(sections: seq<Section>, id: string, fuel: nat): Result<string> {
    if sections == [] then Ok("Undefined section: " + id)
    else if sections[0].id == id then
      var t :- Eval(sections[0].title, fuel);
      if t.None? then Err(NullPointerError) else Ok(t.value)
    else SectionTitle(sections[1..], id, fuel)
  }

  /** `getTitle()` of a reference: the section is looked up anew on every call. */
  function ReferenceTitleOf(r: StepReference, sections: seq<Section>, fuel: nat): Result<ReferenceTitle> {
    var t :- SectionTitle(sections, r.sectionId, fuel);
    Ok(ReferenceTitle(t, r.scenarioId))
  }

  /** `getDescription()` of a reference. */
  function ReferenceDescriptionOf(r: StepReference, sections: seq<Section>, fuel: nat): Result<ReferenceDescription> {
    var t :- SectionTitle(sections, r.sectionId, fuel);
    Ok(ReferenceDescription(t, r.scenarioId, r.stepId))
  }

  /** The getters a reference step answers as a step of a scenario. */
  datatype ReferenceGetter = TitleGetter | DescriptionGetter | ExpectedResultGetter | PreConditionGetter
                           | RequiredDataGetter | CommentGetter

  /** What a getter of a reference returns: formatter arguments, or a fixed text. */
  datatype ReferenceValue = TitleValue(title: ReferenceTitle) | DescriptionValue(description: ReferenceDescription)
                          | TextValue(text: string)

  /**
   * A getter of a reference step. Title and description look the section up; the expected
   * result, precondition, required data and comment of a reference are always empty.
   */
  function ReferenceField(r: StepReference, g: ReferenceGetter, sections: seq<Section>, fuel: nat): Result<ReferenceValue> {
    match g
    case TitleGetter => var t :- ReferenceTitleOf(r, sections, fuel); Ok(TitleValue(t))
    case DescriptionGetter => var d :- ReferenceDescriptionOf(r, sections, fuel); Ok(DescriptionValue(d))
    case _ => Ok(TextValue(""))
  }

  // ---------------------------------------------------------------------------------------
  // TestPlanYamlStep

  /** The six templates of an inline step, once all of them are set. */
  datatype StepState = StepState(id: Option<string>, title: Expr, description: Expr, preCondition: Expr,
                                 requiredData: Expr, expectedResult: Expr, comment: Expr)

  /** `template.evaluate()` on a template field that may still be null. */
  function EvalField(field: Option<Expr>, fuel: nat): (r: Result<Option<string>>)
    ensures field.None? ==> r == Err(NullPointerError)
  {
    if field.None? then Err(NullPointerError) else Eval(field.value, fuel)
  }

  /**
   * An inline step. The title is compiled once; the other templates are null until their
   * setter is called, and each setter compiles its text against the root context.
   */
  class TestPlanYamlStep {
    const rootContext: Context
    const id: Option<string>
    const title: Expr
    var description: Option<Expr>
    var expectedResult: Option<Expr>
    var requiredData: Option<Expr>
    var preCondition: Option<Expr>
    var comment: Option<Expr>

    constructor(rootContext: Context, id: Option<string>, title: Expr)
      ensures this.rootContext == rootContext && this.id == id && this.title == title
      ensures description.None? && expectedResult.None? && requiredData.None?
      ensures preCondition.None? && comment.None?
    {
      this.rootContext := rootContext;
      this.id := id;
      this.title := title;
      description, expectedResult, requiredData, preCondition, comment := None, None, None, None, None;
    }

    function GetTitle(fuel: nat): Result<Option<string>> {
      Eval(title, fuel)
    }

    function GetDescription(fuel: nat): Result<Option<string>>
      reads this
    {
      EvalField(description, fuel)
    }

    function GetExpectedResult(fuel: nat): Result<Option<string>>
      reads this
    {
      EvalField(expectedResult, fuel)
    }

    function GetRequiredData(fuel: nat): Result<Option<string>>
      reads this
    {
      EvalField(requiredData, fuel)
    }

    function GetPreCondition(fuel: nat): Result<Option<string>>
      reads this
    {
      EvalField(preCondition, fuel)
    }

    function GetComment(fuel: nat): Result<Option<string>>
      reads this
    {
      EvalField(comment, fuel)
    }

    /** The templates of a step whose setters have all been called. */
    function State(): (s: Option<StepState>)
      reads this
      ensures s.Some? <==> description.Some? && expectedResult.Some? && requiredData.Some?
                           && preCondition.Some? && comment.Some?
    {
      if description.Some? && expectedResult.Some? && requiredData.Some? && preCondition.Some? && comment.Some?
      then Some(StepState(id, title, description.value, preCondition.value, requiredData.value,
                          expectedResult.value, comment.value))
      else None
    }

    /**
     * `setDescription(text)`: on success the description is the compiled text, so every later
     * `getDescription` evaluates it afresh; a text that does not compile throws and changes
     * nothing. No other template changes either way.
     */
    method SetDescription(text: Option<string>) returns (r: Result<()>)
      modifies this
      ensures var c := Compile(text, rootContext);
              (c.Ok? ==> r == Ok(()) && description == Some(c.value)
                         && forall fuel: nat :: GetDescription(fuel) == Eval(c.value, fuel))
              && (c.Err? ==> r == Err(c.error) && description == old(description))
      ensures expectedResult == old(expectedResult) && requiredData == old(requiredData)
      ensures preCondition == old(preCondition) && comment == old(comment)
    {
      var c := Compile(text, rootContext);
      if c.Err? {
        return Err(c.error);
      }
      description := Some(c.value);
      return Ok(());
    }

    /** `setExpectedResult(text)`, as `SetDescription` for the expected result. */
    method SetExpectedResult(text: Option<string>) returns (r: Result<()>)
      modifies this
      ensures var c := Compile(text, rootContext);
              (c.Ok? ==> r == Ok(()) && expectedResult == Some(c.value)
                         && forall fuel: nat :: GetExpectedResult(fuel) == Eval(c.value, fuel))
              && (c.Err? ==> r == Err(c.error) && expectedResult == old(expectedResult))
      ensures description == old(description) && requiredData == old(requiredData)
      ensures preCondition == old(preCondition) && comment == old(comment)
    {
      var c := Compile(text, rootContext);
      if c.Err? {
        return Err(c.error);
      }
      expectedResult := Some(c.value);
      return Ok(());
    }

    /** `setRequiredData(text)`, as `SetDescription` for the required data. */
    method SetRequiredData(text: Option<string>) returns (r: Result<()>)
      modifies this
      ensures var c := Compile(text, rootContext);
              (c.Ok? ==> r == Ok(()) && requiredData == Some(c.value)
                         && forall fuel: nat :: GetRequiredData(fuel) == Eval(c.value, fuel))
              && (c.Err? ==> r == Err(c.error) && requiredData == old(requiredData))
      ensures description == old(description) && expectedResult == old(expectedResult)
      ensures preCondition == old(preCondition) && comment == old(comment)
    {
      var c := Compile(text, rootContext);
      if c.Err? {
        return Err(c.error);
      }
      requiredData := Some(c.value);
      return Ok(());
    }

    /** `setPreCondition(text)`, as `SetDescription` for the precondition. */
    method SetPreCondition(text: Option<string>) returns (r: Result<()>)
      modifies this
      ensures var c := Compile(text, rootContext);
              (c.Ok? ==> r == Ok(()) && preCondition == Some(c.value)
                         && forall fuel: nat :: GetPreCondition(fuel) == Eval(c.value, fuel))
              && (c.Err? ==> r == Err(c.error) && preCondition == old(preCondition))
      ensures description == old(description) && expectedResult == old(expectedResult)
      ensures requiredData == old(requiredData) && comment == old(comment)
    {
      var c := Compile(text, rootContext);
      if c.Err? {
        return Err(c.error);
      }
      preCondition := Some(c.value);
      return Ok(());
    }

    /** `setComment(text)`, as `SetDescription` for the comment. */
    method SetComment(text: Option<string>) returns (r: Result<()>)
      modifies this
      ensures var c := Compile(text, rootContext);
              (c.Ok? ==> r == Ok(()) && comment == Some(c.value)
                         && forall fuel: nat :: GetComment(fuel) == Eval(c.value, fuel))
              && (c.Err? ==> r == Err(c.error) && comment == old(comment))
      ensures description == old(description) && expectedResult == old(expectedResult)
      ensures requiredData == old(requiredData) && preCondition == old(preCondition)
    {
      var c := Compile(text, rootContext);
      if c.Err? {
        return Err(c.error);
      }
      comment := Some(c.value);
      return Ok(());
    }
  }

  /** `new TestPlanYamlStep(parent, id, title)`: the title is compiled against the root context. */
  method NewStep(rootContext: Context, id: Option<string>, title: Option<string>) returns (r: Result<TestPlanYamlStep>)
    ensures var c := Compile(title, rootContext);
            (c.Err? ==> r == Err(c.error))
            && (c.Ok? ==> r.Ok? && fresh(r.value) && r.value.rootContext == rootContext && r.value.id == id
                          && r.value.title == c.value && r.value.State().None?
                          && forall fuel: nat :: r.value.GetDescription(fuel) == Err(NullPointerError))
  {
    var c := Compile(title, rootContext);
    if c.Err? {
      return Err(c.error);
    }
    var step := new TestPlanYamlStep(rootContext, id, c.value);
    return Ok(step);
  }

  // ---------------------------------------------------------------------------------------
  // TestPlanYamlScenario

  /** `data.get(key)` on a YAML mapping of strings. */
  function Get(data: map<string, string>, key: string): (r: Option<string>)
    ensures r.Some? <==> key in data
    ensures r.Some? ==> r.value == data[key]
  {
    if key in data then Some(data[key]) else None
  }

  /**
   * What `readYamlStep` makes of a step's fields: the six templates compiled against the root
   * context, with the first failure in the order title, description, precondition, required
   * data, expected result, comment.
   */
  function StepFields(ctx: Context, id: Option<string>, data: map<string, string>): Result<StepState> {
    var t :- Compile(Get(data, "title"), ctx);
    var d :- Compile(Get(data, "description"), ctx);
    var p :- Compile(Get(data, "preCondition"), ctx);
    var q :- Compile(Get(data, "requiredData"), ctx);
    var x :- Compile(Get(data, "expectedResult"), ctx);
    var c :- Compile(Get(data, "comment"), ctx);
    Ok(StepState(id, t, d, p, q, x, c))
  }

  /** `readYamlStep(id, stepData)`: construct the step, then call its five setters. */
  method ReadYamlStep(ctx: Context, id: Option<string>, data: map<string, string>) returns (r: Result<TestPlanYamlStep>)
    ensures var spec := StepFields(ctx, id, data);
            (spec.Err? ==> r == Err(spec.error))
            && (spec.Ok? ==> r.Ok? && fresh(r.value) && r.value.State() == Some(spec.value))
  {
    var made := NewStep(ctx, id, Get(data, "title"));
    if made.Err? {
      return Err(made.error);
    }
    var step := made.value;
    var s := step.SetDescription(Get(data, "description"));
    if s.Err? {
      return Err(s.error);
    }
    s := step.SetPreCondition(Get(data, "preCondition"));
    if s.Err? {
      return Err(s.error);
    }
    s := step.SetRequiredData(Get(data, "requiredData"));
    if s.Err? {
      return Err(s.error);
    }
    s := step.SetExpectedResult(Get(data, "expectedResult"));
    if s.Err? {
      return Err(s.error);
    }
    s := step.SetComment(Get(data, "comment"));
    if s.Err? {
      return Err(s.error);
    }
    return Ok(step);
  }

  /** An entry of a scenario's `steps` list as YAML loads it. */
  datatype StepEntry =
    | NullEntry
    | TextEntry(text: string)
    | FieldsEntry(fields: map<string, string>)
    | OtherEntry                    // a number, a list or any other YAML value

  /** A step of a scenario: an inline step object, or a reference. */
  datatype StepPart = InlineStep(step: TestPlanYamlStep) | ReferenceStep(reference: StepReference)

  /** What a step of a scenario holds once it is read. */
  datatype StepSpec = InlineSpec(state: StepState) | ReferenceSpec(reference: StepReference)

  predicate StartsWithMarker(s: string) {
    |s| > 0 && s[0] == Marker
  }

  /**
   * `readStep(obj)` on a non-null entry: a string that starts with the marker is a reference,
   * anything else is cast to a mapping of fields. Both kinds get a null id.
   */
  function ReadStepSpec(ctx: Context, entry: StepEntry): Result<StepSpec>
    requires !entry.NullEntry?
  {
    match entry
    case TextEntry(t) =>
      if StartsWithMarker(t) then
        var r :- ParseReference(t, None);
        Ok(ReferenceSpec(r))
      else Err(NotAMappingError)
    case FieldsEntry(m) =>
      var s :- StepFields(ctx, None, m);
      Ok(InlineSpec(s))
    case OtherEntry => Err(NotAMappingError)
  }

  /** What reading one entry of the `steps` list gives: nothing for a null entry, which is skipped. */
  function StepOutcome(ctx: Context, entry: StepEntry): Option<Result<StepSpec>> {
    if entry.NullEntry? then None else Some(ReadStepSpec(ctx, entry))
  }

  function StepOutcomes(ctx: Context, entries: seq<StepEntry>): seq<Option<Result<StepSpec>>> {
    seq(|entries|, k requires 0 <= k < |entries| => StepOutcome(ctx, entries[k]))
  }

  /** The steps read from the first `n` entries: null entries are skipped, the rest kept in order. */
  function ReadSteps(ctx: Context, entries: seq<StepEntry>, n: nat): Result<seq<StepSpec>>
    requires n <= |entries|
  {
    CollectPresent(StepOutcomes(ctx, entries), n)
  }

  /** The objects a list of steps holds. */
  function StepObjects(steps: seq<StepPart>): set<TestPlanYamlStep> {
    set k | 0 <= k < |steps| && steps[k].InlineStep? :: steps[k].step
  }

  lemma StepObjectsSnoc(steps: seq<StepPart>, p: StepPart)
    ensures StepObjects(steps + [p]) == StepObjects(steps) + (if p.InlineStep? then {p.step} else {})
  {
    var t := steps + [p];
    assert forall k :: 0 <= k < |steps| ==> t[k] == steps[k];
    assert t[|steps|] == p;
  }

  /** What one step holds now: an inline step whose state is incomplete holds nothing readable. */
  function PartSpec(p: StepPart): Option<StepSpec>
    reads if p.InlineStep? then {p.step} else {}
  {
    match p
    case InlineStep(s) => if s.State().Some? then Some(InlineSpec(s.State().value)) else None
    case ReferenceStep(r) => Some(ReferenceSpec(r))
  }

  /** What the steps hold now. */
  function Specs(steps: seq<StepPart>): (r: seq<Option<StepSpec>>)
    reads StepObjects(steps)
    ensures |r| == |steps|
  {
    if steps == [] then []
    else
      var last := steps[|steps| - 1];
      assert StepObjects(steps[..|steps| - 1]) <= StepObjects(steps);
      assert last.InlineStep? ==> last.step in StepObjects(steps);
      Specs(steps[..|steps| - 1]) + [PartSpec(last)]
  }

  lemma SpecsSnoc(steps: seq<StepPart>, p: StepPart)
    ensures Specs(steps + [p]) == Specs(steps) + [PartSpec(p)]
  {
    assert (steps + [p])[..|steps|] == steps;
  }

  /** The scenario fields YAML provides; `steps` is null when the key is missing. */
  datatype ScenarioData = ScenarioData(title: Option<string>, goal: Option<string>, context: Option<string>,
                                       steps: Option<seq<StepEntry>>)

  datatype Scenario = Scenario(id: Option<string>, title: Expr, goal: Expr, context: Expr, steps: seq<StepPart>)

  /** `getTitle()` of a scenario: the compiled template is evaluated anew on every call. */
  function ScenarioTitle(sc: Scenario, fuel: nat): Result<Option<string>> {
    Eval(sc.title, fuel)
  }

  /** `getGoal()` of a scenario. */
  function ScenarioGoal(sc: Scenario, fuel: nat): Result<Option<string>> {
    Eval(sc.goal, fuel)
  }

  /** `getContext()` of a scenario. */
  function ScenarioContext(sc: Scenario, fuel: nat): Result<Option<string>> {
    Eval(sc.context, fuel)
  }

  /** The steps of a scenario's `steps` entry: none when it is missing. */
  function ScenarioSteps(ctx: Context, steps: Option<seq<StepEntry>>): Result<seq<StepSpec>> {
    if steps.None? then Ok([]) else ReadSteps(ctx, steps.value, |steps.value|)
  }

  /** One non-null entry of the `steps` list: `readStep`, creating the step object of an inline step. */
  method ReadStepPart(ctx: Context, entry: StepEntry) returns (r: Result<StepPart>)
    requires !entry.NullEntry?
    ensures var spec := ReadStepSpec(ctx, entry);
            (spec.Err? ==> r == Err(spec.error))
            && (spec.Ok? ==> r.Ok? && (r.value.InlineStep? ==> fresh(r.value.step)) && PartSpec(r.value) == Some(spec.value))
  {
    if entry.TextEntry? && StartsWithMarker(entry.text) {
      var ref := ParseReference(entry.text, None);
      if ref.Err? {
        return Err(ref.error);
      }
      return Ok(ReferenceStep(ref.value));
    } else if entry.FieldsEntry? {
      var step := ReadYamlStep(ctx, None, entry.fields);
      if step.Err? {
        return Err(step.error);
      }
      return Ok(InlineStep(step.value));
    }
    return Err(NotAMappingError);
  }

  /** The steps hold exactly the specs read so far, in order. */
  predicate SpecsMatch(steps: seq<StepPart>, specs: seq<StepSpec>)
    reads StepObjects(steps)
  {
    |Specs(steps)| == |specs| && forall k :: 0 <= k < |specs| ==> Specs(steps)[k] == Some(specs[k])
  }

  /** One pass of the loop over the `steps` list: entry `i` is skipped when null, read otherwise. */
  method ReadNextStep(ctx: Context, entries: seq<StepEntry>, i: nat, steps: seq<StepPart>, ghost specs: seq<StepSpec>)
    returns (r: Result<seq<StepPart>>, ghost specs': seq<StepSpec>)
    requires i < |entries| && CollectPresent(StepOutcomes(ctx, entries), i) == Ok(specs) && SpecsMatch(steps, specs)
    ensures var next := CollectPresent(StepOutcomes(ctx, entries), i + 1);
            (next.Err? ==> r == Err(next.error))
            && (next.Ok? ==>
                  r.Ok? && next == Ok(specs') && SpecsMatch(r.value, specs')
                  && forall s :: s in StepObjects(r.value) ==> s in StepObjects(steps) || fresh(s))
  {
    var entry := entries[i];
    assert StepOutcomes(ctx, entries)[i] == StepOutcome(ctx, entry);
    if entry.NullEntry? {
      return Ok(steps), specs;
    }
    ghost var held := Specs(steps);
    assert forall s :: s in StepObjects(steps) ==> allocated(s);
    var part := ReadStepPart(ctx, entry);
    if part.Err? {
      return Err(part.error), specs;
    }
    assert Specs(steps) == held;
    SpecsSnoc(steps, part.value);
    StepObjectsSnoc(steps, part.value);
    return Ok(steps + [part.value]), specs + [ReadStepSpec(ctx, entry).value];
  }

  /** The loop over the `steps` list: null entries are skipped, the others read in order. */
  method ReadStepList(ctx: Context, entries: seq<StepEntry>) returns (r: Result<seq<StepPart>>)
    ensures var specs := ReadSteps(ctx, entries, |entries|);
            (specs.Err? ==> r == Err(specs.error))
            && (specs.Ok? ==>
                  r.Ok? && |Specs(r.value)| == |specs.value|
                  && (forall k :: 0 <= k < |specs.value| ==> Specs(r.value)[k] == Some(specs.value[k]))
                  && forall s :: s in StepObjects(r.value) ==> fresh(s))
  {
    var steps: seq<StepPart> := [];
    ghost var specs: seq<StepSpec> := [];
    for i := 0 to |entries|
      invariant CollectPresent(StepOutcomes(ctx, entries), i) == Ok(specs)
      invariant SpecsMatch(steps, specs)
      invariant forall s :: s in StepObjects(steps) ==> fresh(s)
    {
      var next;
      next, specs := ReadNextStep(ctx, entries, i, steps, specs);
      if next.Err? {
        CollectFailsEarly(StepOutcomes(ctx, entries), i + 1, |entries|);
        return Err(next.error);
      }
      steps := next.value;
    }
    return Ok(steps);
  }

  /**
   * `new TestPlanYamlScenario(parent, id, data)`: title, goal and context are compiled against
   * the root context in that order, then the step list is read entry by entry.
   */
  method ReadScenario(ctx: Context, id: Option<string>, data: ScenarioData) returns (r: Result<Scenario>)
    ensures var t, g, c := Compile(data.title, ctx), Compile(data.goal, ctx), Compile(data.context, ctx);
            var steps := ScenarioSteps(ctx, data.steps);
            (t.Err? ==> r == Err(t.error))
            && (t.Ok? && g.Err? ==> r == Err(g.error))
            && (t.Ok? && g.Ok? && c.Err? ==> r == Err(c.error))
            && (t.Ok? && g.Ok? && c.Ok? && steps.Err? ==> r == Err(steps.error))
            && (t.Ok? && g.Ok? && c.Ok? && steps.Ok? ==>
                  r.Ok? && r.value.id == id && r.value.title == t.value && r.value.goal == g.value
                  && r.value.context == c.value
                  && |Specs(r.value.steps)| == |steps.value|
                  && (forall k :: 0 <= k < |steps.value| ==> Specs(r.value.steps)[k] == Some(steps.value[k]))
                  && forall s :: s in StepObjects(r.value.steps) ==> fresh(s))
  {
    var t := Compile(data.title, ctx);
    if t.Err? {
      return Err(t.error);
    }
    var g := Compile(data.goal, ctx);
    if g.Err? {
      return Err(g.error);
    }
    var c := Compile(data.context, ctx);
    if c.Err? {
      return Err(c.error);
    }
    var entries := if data.steps.None? then [] else data.steps.value;
    assert ScenarioSteps(ctx, data.steps) == ReadSteps(ctx, entries, |entries|);
    var steps := ReadStepList(ctx, entries);
    if steps.Err? {
      return Err(steps.error);
    }
    return Ok(Scenario(id, t.value, g.value, c.value, steps.value));
  }
}
