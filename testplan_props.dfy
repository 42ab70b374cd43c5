/**
 * Properties of step references, section lookup and the step list of a scenario.
 */
module TestPlanProperties {
  import opened Base
  import opened Contexts
  import opened Template
  import opened TemplateProperties
  import opened Evaluation
  import opened EvaluationProperties
  import opened TestPlan

  // ---------------------------------------------------------------------------------------
  // Step references

  lemma {:induction false} IndexOfFirst(a: string, c: char, rest: string)
    requires c !in a
    ensures IndexOf(a + [c] + rest, c) == Some(|a|)
  {
    if a != [] {
      assert (a + [c] + rest)[1..] == a[1..] + [c] + rest;
      IndexOfFirst(a[1..], c, rest);
    }
  }

  lemma SplitAt(a: string, c: char, rest: string, limit: nat)
    requires limit >= 2 && c !in a
    ensures Split(a + [c] + rest, c, limit) == [a] + Split(rest, c, limit - 1)
  {
    var s := a + [c] + rest;
    IndexOfFirst(a, c, rest);
    assert s[..|a|] == a;
    assert s[|a| + 1..] == rest;
  }

  /** A text without a marker is not cut. */
  lemma SplitWhole(s: string, c: char, limit: nat)
    requires limit >= 1 && c !in s
    ensures Split(s, c, limit) == [s]
  {
  }

  /**
   * Writing a reference out and reading it back gives it again, whatever its step id holds:
   * the step id is the whole text after the second marker, further markers included.
   */
  lemma ReferenceRoundTrip(r: StepReference)
    requires Marker !in r.sectionId && Marker !in r.scenarioId
    ensures ParseReference(ReferenceText(r), r.id) == Ok(r)
  {
    var t := ReferenceText(r);
    var tail := if r.stepId.Some? then [Marker] + r.stepId.value else [];
    assert t[1..] == r.sectionId + [Marker] + (r.scenarioId + tail);
    SplitAt(r.sectionId, Marker, r.scenarioId + tail, 3);
    if r.stepId.Some? {
      assert r.scenarioId + tail == r.scenarioId + [Marker] + r.stepId.value;
      SplitAt(r.scenarioId, Marker, r.stepId.value, 2);
    } else {
      assert r.scenarioId + tail == r.scenarioId;
      SplitWhole(r.scenarioId, Marker, 2);
    }
  }

  /**
   * Reading is lossless in the other direction too: a reference that parses is the text
   * after its first character, and its section and scenario ids hold no marker.
   */
  lemma ParsedReferenceIsText(reference: string, id: Option<string>)
    requires ParseReference(reference, id).Ok?
    ensures var r := ParseReference(reference, id).value;
            r.id == id && Marker !in r.sectionId && Marker !in r.scenarioId
            && reference[1..] == ReferenceText(r)[1..]
  {
    var refs := Split(reference[1..], Marker, 3);
    FieldsAreReferenceText(refs, id);
  }

  /** Two or three fields joined by markers are the text of the reference they make, after its marker. */
  lemma FieldsAreReferenceText(refs: seq<string>, id: Option<string>)
    requires 2 <= |refs| <= 3
    ensures JoinWith(refs, Marker)
         == ReferenceText(StepReference(id, refs[0], refs[1], if |refs| > 2 then Some(refs[2]) else None))[1..]
  {
    if |refs| == 2 {
      assert refs == [refs[0], refs[1]];
      TwoFields(refs[0], refs[1], id);
    } else {
      assert refs == [refs[0], refs[1], refs[2]];
      ThreeFields(refs[0], refs[1], refs[2], id);
    }
  }

  lemma TwoFields(a: string, b: string, id: Option<string>)
    ensures JoinWith([a, b], Marker) == ReferenceText(StepReference(id, a, b, None))[1..]
  {
    assert [a, b][1..] == [b];
    var t := a + [Marker] + b;
    assert ReferenceText(StepReference(id, a, b, None)) == [Marker] + t;
    assert ([Marker] + t)[1..] == t;
  }

  lemma ThreeFields(a: string, b: string, c: string, id: Option<string>)
    ensures JoinWith([a, b, c], Marker) == ReferenceText(StepReference(id, a, b, Some(c)))[1..]
  {
    assert [a, b, c][1..] == [b, c] && [b, c][1..] == [c];
    assert JoinWith([b, c], Marker) == b + [Marker] + c;
    var t := a + [Marker] + (b + [Marker] + c);
    assert JoinWith([a, b, c], Marker) == t;
    assert ReferenceText(StepReference(id, a, b, Some(c))) == [Marker] + a + [Marker] + b + ([Marker] + c);
    assert [Marker] + a + [Marker] + b + ([Marker] + c) == [Marker] + t;
    assert ([Marker] + t)[1..] == t;
  }

  /** A reference without a second marker is rejected, and only such a reference is. */
  lemma InvalidReference(reference: string, id: Option<string>)
    requires reference != []
    ensures ParseReference(reference, id).Err? <==> Marker !in reference[1..]
    ensures Marker !in reference[1..] ==>
              ParseReference(reference, id) == Err(Error(IllegalArgument, "invalid reference: " + reference))
  {
    var refs := Split(reference[1..], Marker, 3);
    if |refs| == 1 {
      assert JoinWith(refs, Marker) == refs[0];
    } else {
      assert Marker in reference[1..] by {
        assert reference[1..] == refs[0] + [Marker] + JoinWith(refs[1..], Marker);
        assert (refs[0] + [Marker] + JoinWith(refs[1..], Marker))[|refs[0]|] == Marker;
      }
    }
  }

  /** Trailing empty fields are kept: `§a§b§` names the step "" of scenario b. */
  lemma TrailingEmptyStepId(a: string, b: string, id: Option<string>)
    requires Marker !in a && Marker !in b
    ensures ParseReference([Marker] + a + [Marker] + b + [Marker], id) == Ok(StepReference(id, a, b, Some([])))
  {
    var r := StepReference(id, a, b, Some([]));
    ReferenceRoundTrip(r);
    assert ReferenceText(r) == [Marker] + a + [Marker] + b + [Marker];
  }

  /** `§a§` names the scenario "" of section a, with no step id. */
  lemma TrailingEmptyScenarioId(a: string, id: Option<string>)
    requires Marker !in a
    ensures ParseReference([Marker] + a + [Marker], id) == Ok(StepReference(id, a, [], None))
  {
    var r := StepReference(id, a, [], None);
    ReferenceRoundTrip(r);
    assert ReferenceText(r) == [Marker] + a + [Marker];
  }

  // ---------------------------------------------------------------------------------------
  // Section lookup

  /**
   * The section title is that of the first section with the id, evaluated, and a null title
   * fails; when no section has the id the result is the soft "Undefined section" text.
   */
  lemma {:induction false} SectionTitleIsFirstMatch(sections: seq<Section>, id: string, fuel: nat)
    ensures (forall k :: 0 <= k < |sections| ==> sections[k].id != id) ==>
              SectionTitle(sections, id, fuel) == Ok("Undefined section: " + id)
    ensures forall k :: 0 <= k < |sections| && sections[k].id == id
                        && (forall j :: 0 <= j < k ==> sections[j].id != id) ==>
              SectionTitle(sections, id, fuel)
              == (var t := Eval(sections[k].title, fuel);
                  if t.Err? then Err(t.error) else if t.value.None? then Err(NullPointerError) else Ok(t.value.value))
  {
    if sections != [] {
      SectionTitleIsFirstMatch(sections[1..], id, fuel);
      forall k | 0 < k < |sections| && sections[k].id == id && (forall j :: 0 <= j < k ==> sections[j].id != id)
        ensures SectionTitle(sections, id, fuel) == SectionTitle(sections[1..], id, fuel)
      {
        assert sections[0].id != id;
        assert sections[1..][k - 1] == sections[k];
      }
    }
  }

  // ---------------------------------------------------------------------------------------
  // The steps of a scenario

  /** The entries of a list that are not null, in order. */
  function NonNull(entries: seq<StepEntry>): (r: seq<StepEntry>)
    ensures forall k :: 0 <= k < |r| ==> !r[k].NullEntry?
  {
    if entries == [] then []
    else if entries[0].NullEntry? then NonNull(entries[1..])
    else [entries[0]] + NonNull(entries[1..])
  }

  lemma {:induction false} NonNullSnoc(entries: seq<StepEntry>, e: StepEntry)
    ensures NonNull(entries + [e]) == NonNull(entries) + (if e.NullEntry? then [] else [e])
  {
    if entries == [] {
      assert [] + [e] == [e];
    } else {
      assert (entries + [e])[1..] == entries[1..] + [e];
      NonNullSnoc(entries[1..], e);
    }
  }

  /** Every non-null entry of the list reads without failure. */
  predicate AllRead(ctx: Context, entries: seq<StepEntry>) {
    var nn := NonNull(entries);
    forall k :: 0 <= k < |nn| ==> ReadStepSpec(ctx, nn[k]).Ok?
  }

  /** The outcomes that reading does not skip are those of the non-null entries, in order. */
  lemma {:induction false} PresentOfOutcomes(ctx: Context, entries: seq<StepEntry>)
    ensures var pr := Present(StepOutcomes(ctx, entries));
            var nn := NonNull(entries);
            |pr| == |nn| && forall k :: 0 <= k < |nn| ==> pr[k] == ReadStepSpec(ctx, nn[k])
  {
    if entries != [] {
      var rest := entries[1..];
      PresentOfOutcomes(ctx, rest);
      var outs := StepOutcomes(ctx, entries);
      assert outs[1..] == StepOutcomes(ctx, rest);
      assert outs[0] == StepOutcome(ctx, entries[0]);
      var pr, nn := Present(outs), NonNull(entries);
      var pt, nt := Present(StepOutcomes(ctx, rest)), NonNull(rest);
      if entries[0].NullEntry? {
        assert pr == pt && nn == nt;
      } else {
        assert pr == [ReadStepSpec(ctx, entries[0])] + pt;
        assert nn == [entries[0]] + nt;
        forall k | 0 <= k < |nn| ensures pr[k] == ReadStepSpec(ctx, nn[k]) {
          if k > 0 {
            assert pr[k] == pt[k - 1] && nn[k] == nt[k - 1];
          }
        }
      }
    }
  }

  lemma ReadStepsPrefix(ctx: Context, entries: seq<StepEntry>, n: nat)
    requires n <= |entries|
    ensures var r := ReadSteps(ctx, entries, n);
            var nn := NonNull(entries[..n]);
            (r.Ok? <==> AllRead(ctx, entries[..n]))
            && (r.Ok? ==> |r.value| == |nn| && forall k :: 0 <= k < |nn| ==> r.value[k] == ReadStepSpec(ctx, nn[k]).value)
  {
    var outs := StepOutcomes(ctx, entries);
    CollectPrefix(outs, n);
    assert outs[..n] == StepOutcomes(ctx, entries[..n]);
    PresentOfOutcomes(ctx, entries[..n]);
  }

  /**
   * A scenario's steps are its non-null entries read one by one, in order; the list fails
   * exactly when one of those entries fails.
   */
  lemma StepsAreNonNullEntriesInOrder(ctx: Context, entries: seq<StepEntry>)
    ensures var r := ReadSteps(ctx, entries, |entries|);
            var nn := NonNull(entries);
            (r.Ok? <==> AllRead(ctx, entries))
            && (r.Ok? ==> |r.value| == |nn| && forall k :: 0 <= k < |nn| ==> r.value[k] == ReadStepSpec(ctx, nn[k]).value)
  {
    ReadStepsPrefix(ctx, entries, |entries|);
    assert entries[..|entries|] == entries;
  }

  /** A marker string becomes a reference with a null id; a string without it is not a step. */
  lemma TextEntries(ctx: Context, t: string)
    ensures StartsWithMarker(t) && ParseReference(t, None).Ok? ==>
              ReadStepSpec(ctx, TextEntry(t)) == Ok(ReferenceSpec(ParseReference(t, None).value))
              && ReadStepSpec(ctx, TextEntry(t)).value.reference.id.None?
    ensures !StartsWithMarker(t) ==> ReadStepSpec(ctx, TextEntry(t)) == Err(NotAMappingError)
  {
  }

  /** A key missing from a step's fields leaves that template a NullExpression, which evaluates to null. */
  lemma MissingFieldIsNull(ctx: Context, data: map<string, string>)
    requires StepFields(ctx, None, data).Ok?
    ensures var s := StepFields(ctx, None, data).value;
            s.id.None?
            && ("description" !in data ==> s.description == NullExpr)
            && ("preCondition" !in data ==> s.preCondition == NullExpr)
            && ("requiredData" !in data ==> s.requiredData == NullExpr)
            && ("expectedResult" !in data ==> s.expectedResult == NullExpr)
            && ("comment" !in data ==> s.comment == NullExpr)
  {
  }

  // ---------------------------------------------------------------------------------------
  // Getters

  /**
   * The four getters a reference does not look up are the empty text whatever the sections;
   * title and description fail exactly when the section lookup does, and otherwise hand the
   * section title, the scenario id and (for the description) the step id to the formatter.
   */
  lemma ReferenceFields(r: StepReference, g: ReferenceGetter, sections: seq<Section>, fuel: nat)
    ensures (g.ExpectedResultGetter? || g.PreConditionGetter? || g.RequiredDataGetter? || g.CommentGetter?) ==>
              ReferenceField(r, g, sections, fuel) == Ok(TextValue(""))
    ensures (g.TitleGetter? || g.DescriptionGetter?) ==>
              (ReferenceField(r, g, sections, fuel).Err? <==> SectionTitle(sections, r.sectionId, fuel).Err?)
    ensures g.TitleGetter? && SectionTitle(sections, r.sectionId, fuel).Ok? ==>
              ReferenceField(r, g, sections, fuel)
                == Ok(TitleValue(ReferenceTitle(SectionTitle(sections, r.sectionId, fuel).value, r.scenarioId)))
    ensures g.DescriptionGetter? && SectionTitle(sections, r.sectionId, fuel).Ok? ==>
              ReferenceField(r, g, sections, fuel)
                == Ok(DescriptionValue(ReferenceDescription(SectionTitle(sections, r.sectionId, fuel).value,
                                                            r.scenarioId, r.stepId)))
  {
  }

  /** One scenario template, as `ReadScenario` stores it: null when missing, plain text as itself. */
  lemma {:induction false} ScenarioFieldEvaluates(ctx: Context, text: Option<string>, e: Expr, fuel: nat)
    requires Compile(text, ctx) == Ok(e)
    ensures text.None? ==> Eval(e, fuel) == Ok(None)
    ensures text.Some? && IsPlainText(text.value) ==> Eval(e, fuel) == Ok(Some(text.value))
  {
    if text.Some? && IsPlainText(text.value) {
      LiteralTemplateEvaluatesToItself(text.value, ctx, fuel);
    }
  }

  /**
   * The getters of a scenario whose templates are those `ReadScenario` compiled from its data:
   * each evaluates its template on the call, so a missing key reads as null and a text without
   * `$` and `&` reads as itself.
   */
  lemma ScenarioGetters(ctx: Context, data: ScenarioData, sc: Scenario, fuel: nat)
    requires Compile(data.title, ctx) == Ok(sc.title)
    requires Compile(data.goal, ctx) == Ok(sc.goal)
    requires Compile(data.context, ctx) == Ok(sc.context)
    ensures data.title.None? ==> ScenarioTitle(sc, fuel) == Ok(None)
    ensures data.goal.None? ==> ScenarioGoal(sc, fuel) == Ok(None)
    ensures data.context.None? ==> ScenarioContext(sc, fuel) == Ok(None)
    ensures data.title.Some? && IsPlainText(data.title.value) ==> ScenarioTitle(sc, fuel) == Ok(data.title)
    ensures data.goal.Some? && IsPlainText(data.goal.value) ==> ScenarioGoal(sc, fuel) == Ok(data.goal)
    ensures data.context.Some? && IsPlainText(data.context.value) ==> ScenarioContext(sc, fuel) == Ok(data.context)
  {
    ScenarioFieldEvaluates(ctx, data.title, sc.title, fuel);
    ScenarioFieldEvaluates(ctx, data.goal, sc.goal, fuel);
    ScenarioFieldEvaluates(ctx, data.context, sc.context, fuel);
  }
}
