/** `validate` (app.py:32-39): the captions of the visible required fields left blank. */
module Validation {
  import opened Text
  import opened Form

  /** `not str(v).strip()`: the answer's string form is empty once whitespace is removed. */
  predicate Blank(v: Value)
  {
    Strip(Str(v)) == []
  }

  /**
   * A boolean answer is never blank, whether true or false; a text answer is
   * blank exactly when it is all whitespace.
   */
  lemma BlankIff(v: Value)
    ensures Blank(v) <==> v.VText? && AllSpace(v.s)
  {
    StripSpec(Str(v));
    match v
    case VBool(b) =>
      var s := Str(v);
      assert s[0] == (if b then 'T' else 'F');
    case VText(_) =>
  }

  /** The test `validate` applies to one field: visible, required, and blank (an absent answer reads as ""). */
  predicate IsMissing(f: Field, answers: Answers)
  {
    ShouldShow(f, answers) && f.required && Blank(GetOr(answers, f.id, VText("")))
  }

  /**
   * A field is missing exactly when it is visible, required, and either
   * unanswered or answered with whitespace-only text.
   */
  lemma {:induction false} IsMissingIff(f: Field, answers: Answers)
    ensures IsMissing(f, answers) <==>
      ShouldShow(f, answers) && f.required &&
      (f.id !in answers || (answers[f.id].VText? && AllSpace(answers[f.id].s)))
  {
    BlankIff(GetOr(answers, f.id, VText("")));
  }

  /** A field answered with a boolean, true or false, is never reported missing. */
  lemma {:induction false} BoolAnswerNeverMissing(f: Field, answers: Answers)
    requires f.id in answers && answers[f.id].VBool?
    ensures !IsMissing(f, answers)
  {
    BlankIff(answers[f.id]);
  }

  /** A visible required field with no answer at all is reported missing. */
  lemma {:induction false} UnansweredRequiredMissing(f: Field, answers: Answers)
    requires ShouldShow(f, answers) && f.required && f.id !in answers
    ensures IsMissing(f, answers)
  {
    BlankIff(VText(""));
  }

  /** The captions `validate` returns for `fields`, in schema order. */
  function Missing(fields: seq<Field>, answers: Answers): (r: seq<string>)
  {
    if fields == [] then []
    else
      var last := fields[|fields| - 1];
      Missing(fields[..|fields| - 1], answers) + (if IsMissing(last, answers) then [last.caption] else [])
  }

  /** `validate`: one scan over the fields, appending the caption of each missing one. */
  method Validate(schema: Schema, answers: Answers) returns (missing: seq<string>)
    ensures missing == Missing(schema.fields, answers)
  {
    var fields := schema.fields;
    missing := [];
    for i := 0 to |fields|
      invariant missing == Missing(fields[..i], answers)
    {
      var f := fields[i];
      assert fields[..i + 1][..i] == fields[..i];
      if ShouldShow(f, answers) {
        if f.required && Blank(GetOr(answers, f.id, VText(""))) {
          missing := missing + [f.caption];
        }
      }
    }
    assert fields[..|fields|] == fields;
  }

  /** The report keeps schema order: the report on a concatenation is the concatenation of the reports. */
  lemma {:induction false} MissingAppend(xs: seq<Field>, ys: seq<Field>, answers: Answers)
    ensures Missing(xs + ys, answers) == Missing(xs, answers) + Missing(ys, answers)
    decreases |ys|
  {
    if ys != [] {
      var init := ys[..|ys| - 1];
      assert (xs + ys)[..|xs + ys| - 1] == xs + init;
      MissingAppend(xs, init, answers);
    } else {
      assert xs + ys == xs;
    }
  }

  /** The report on one field: its caption when it is missing, nothing otherwise. */
  lemma MissingSingle(f: Field, answers: Answers)
    ensures Missing([f], answers) == if IsMissing(f, answers) then [f.caption] else []
  {
    assert [f][..0] == [];
  }

  /** A caption is reported exactly when some field carrying it is missing. */
  lemma {:induction false} MissingMembership(fields: seq<Field>, answers: Answers, caption: string)
    ensures caption in Missing(fields, answers) <==>
      exists i :: 0 <= i < |fields| && IsMissing(fields[i], answers) && fields[i].caption == caption
  {
    if fields != [] {
      var init, last := fields[..|fields| - 1], fields[|fields| - 1];
      MissingMembership(init, answers, caption);
      if caption in Missing(fields, answers) {
        if caption !in Missing(init, answers) {
          assert IsMissing(fields[|fields| - 1], answers);
        } else {
          var i :| 0 <= i < |init| && IsMissing(init[i], answers) && init[i].caption == caption;
          assert fields[i] == init[i];
        }
      }
      if exists i :: 0 <= i < |fields| && IsMissing(fields[i], answers) && fields[i].caption == caption {
        var i :| 0 <= i < |fields| && IsMissing(fields[i], answers) && fields[i].caption == caption;
        if i < |init| {
          assert init[i] == fields[i];
        }
      }
    }
  }

  /**
   * Hidden fields are skipped: the report over all fields is the report over
   * the visible ones.
   */
  lemma {:induction false} MissingOnlyVisible(fields: seq<Field>, answers: Answers)
    ensures Missing(fields, answers) == Missing(Visible(fields, answers), answers)
    decreases |fields|
  {
    if fields != [] {
      var init, last := fields[..|fields| - 1], fields[|fields| - 1];
      MissingOnlyVisible(init, answers);
      var vis := if ShouldShow(last, answers) then [last] else [];
      MissingAppend(Visible(init, answers), vis, answers);
      MissingSingle(last, answers);
      assert vis == [] ==> Visible(init, answers) + vis == Visible(init, answers);
    }
  }

  /**
   * A hidden field, whatever stale answer it still holds, can be deleted from
   * the schema without changing the report.
   */
  lemma {:induction false} HiddenFieldIgnored(fields: seq<Field>, i: nat, answers: Answers)
    requires i < |fields| && !ShouldShow(fields[i], answers)
    ensures Missing(fields, answers) == Missing(fields[..i] + fields[i + 1..], answers)
  {
    assert fields == fields[..i] + [fields[i]] + fields[i + 1..];
    MissingAppend(fields[..i] + [fields[i]], fields[i + 1..], answers);
    MissingAppend(fields[..i], [fields[i]], answers);
    MissingSingle(fields[i], answers);
    MissingAppend(fields[..i], fields[i + 1..], answers);
  }

  /** At most one caption per field, and only visible fields contribute. */
  lemma {:induction false} MissingBound(fields: seq<Field>, answers: Answers)
    ensures |Missing(fields, answers)| <= |Visible(fields, answers)| <= |fields|
    decreases |fields|
  {
    if fields != [] {
      MissingBound(fields[..|fields| - 1], answers);
    }
  }

  /**
   * The policy-number example: a text field required only when `has_policy`
   * is true is not reported while `has_policy` is false, and is reported by
   * its caption once `has_policy` is true and it is still unanswered.
   */
  lemma PolicyNumberScenario()
    ensures
      var hasPolicy := Field("has_policy", "Do you have a policy?", "bool", false, Wrappers.None);
      var policyNumber := Field("policy_number", "Policy Number", "text", true,
                                Wrappers.Some(Rule("has_policy", VBool(true))));
      Missing([hasPolicy, policyNumber], map["has_policy" := VBool(false)]) == [] &&
      Missing([hasPolicy, policyNumber], map["has_policy" := VBool(true)]) == ["Policy Number"]
  {
    var hasPolicy := Field("has_policy", "Do you have a policy?", "bool", false, Wrappers.None);
    var policyNumber := Field("policy_number", "Policy Number", "text", true,
                              Wrappers.Some(Rule("has_policy", VBool(true))));
    var off, on := map["has_policy" := VBool(false)], map["has_policy" := VBool(true)];
    UnansweredRequiredMissing(policyNumber, on);
    assert [hasPolicy, policyNumber] == [hasPolicy] + [policyNumber];
    MissingAppend([hasPolicy], [policyNumber], off);
    MissingAppend([hasPolicy], [policyNumber], on);
    MissingSingle(hasPolicy, off);
    MissingSingle(hasPolicy, on);
    MissingSingle(policyNumber, off);
    MissingSingle(policyNumber, on);
  }
}
