/**
 * The form schema and the answer store of the grievance-filing form, with the
 * two pieces of Python behaviour every later stage depends on: `str()` of an
 * answer and the visibility rule `should_show` (app.py:12-16).
 */
module Form {
  import opened Wrappers

  /** An answer as stored by the form: a checkbox state or a typed text. */
  datatype Value = VBool(b: bool) | VText(s: string)

  /** A `show_if` rule `{field, equals}`: show the field when that answer equals `equals`. */
  datatype Rule = Rule(field: string, equals: Value)

  /**
   * One schema field; `caption` is the schema's `label` (a reserved word in
   * Dafny). `ftype` stays the schema's string ("bool", "text", or
   * anything else, which the renderer warns about); `required` is false when
   * the schema omits it; `showIf` is None when the schema has no rule, or an
   * empty one.
   */
  datatype Field = Field(id: string, caption: string, ftype: string, required: bool, showIf: Option<Rule>)

  datatype Attachments = Attachments(allowedTypes: seq<string>, maxSizeMb: nat)

  datatype Schema = Schema(
    portalId: string,
    portalName: string,
    officialFormUrl: string,
    fields: seq<Field>,
    attachments: Attachments)

  /** The id of the free-text complaint field, which the renderer and the packet treat specially. */
  const ComplaintKey := "complaint_details"

  /** The session's answers, keyed by field id. */
  type Answers = map<string, Value>

  /** `answers.get(key)`: None when the key is absent. */
  function Get(answers: Answers, key: string): Option<Value>
  {
    if key in answers then Some(answers[key]) else None
  }

  /** `answers.get(key, default)`. */
  function GetOr(answers: Answers, key: string, default: Value): Value
  {
    if key in answers then answers[key] else default
  }

  /** Python's `str()` of a stored answer. */
  function Str(v: Value): string
  {
    match v
    case VBool(b) => if b then "True" else "False"
    case VText(s) => s
  }

  /** Python's `str()` of `answers.get(key)`, which is "None" for an absent answer. */
  function StrOpt(v: Option<Value>): string
  {
    match v
    case None => "None"
    case Some(x) => Str(x)
  }

  /** `should_show`: a field is visible when it has no rule, or its rule's answer equals the rule's value. */
  predicate ShouldShow(f: Field, answers: Answers)
  {
    match f.showIf
    case None => true
    case Some(rule) => Get(answers, rule.field) == Some(rule.equals)
  }

  /** A field without a `show_if` rule is always visible. */
  lemma NoRuleVisible(f: Field, answers: Answers)
    requires f.showIf.None?
    ensures ShouldShow(f, answers)
  {
  }

  /** With a rule, a field is visible exactly when the rule's answer is present and equal to the rule's value. */
  lemma RuleVisibleIff(f: Field, answers: Answers)
    requires f.showIf.Some?
    ensures ShouldShow(f, answers) <==>
      f.showIf.value.field in answers && answers[f.showIf.value.field] == f.showIf.value.equals
  {
  }

  /** A field whose rule names an unanswered field is hidden, whatever the rule's value. */
  lemma UnansweredDependencyHides(f: Field, answers: Answers)
    requires f.showIf.Some? && f.showIf.value.field !in answers
    ensures !ShouldShow(f, answers)
  {
  }

  /** Visibility reads only the answer its rule names: writing any other answer leaves it as it was. */
  lemma VisibilityFrame(f: Field, answers: Answers, key: string, v: Value)
    requires f.showIf.None? || f.showIf.value.field != key
    ensures ShouldShow(f, answers[key := v]) == ShouldShow(f, answers)
  {
  }

  /** The fields that are visible under `answers`, in schema order. */
  function Visible(fields: seq<Field>, answers: Answers): (r: seq<Field>)
    ensures |r| <= |fields|
  {
    if fields == [] then []
    else
      var init, last := fields[..|fields| - 1], fields[|fields| - 1];
      assert fields == init + [last];
      Visible(init, answers) + (if ShouldShow(last, answers) then [last] else [])
  }

  /** A field survives the filter exactly when it is in the schema and visible. */
  lemma {:induction false} VisibleMembership(fields: seq<Field>, answers: Answers)
    ensures forall f :: f in Visible(fields, answers) <==> f in fields && ShouldShow(f, answers)
    decreases |fields|
  {
    if fields != [] {
      var init, last := fields[..|fields| - 1], fields[|fields| - 1];
      VisibleMembership(init, answers);
      assert fields == init + [last];
    }
  }

  /** The visibility filter keeps schema order: filtering a concatenation concatenates the filtered parts. */
  lemma {:induction false} VisibleAppend(xs: seq<Field>, ys: seq<Field>, answers: Answers)
    ensures Visible(xs + ys, answers) == Visible(xs, answers) + Visible(ys, answers)
    decreases |ys|
  {
    if ys != [] {
      var init, last := ys[..|ys| - 1], ys[|ys| - 1];
      assert (xs + ys)[..|xs + ys| - 1] == xs + init;
      VisibleAppend(xs, init, answers);
    } else {
      assert xs + ys == xs;
    }
  }

  /** The filter applied to one field: the field itself when visible, nothing when hidden. */
  lemma VisibleSingle(f: Field, answers: Answers)
    ensures Visible([f], answers) == if ShouldShow(f, answers) then [f] else []
  {
    assert [f][..0] == [];
  }

  /** Removing a hidden field from the schema does not change which fields are visible. */
  lemma {:induction false} VisibleSkipsHidden(fields: seq<Field>, i: nat, answers: Answers)
    requires i < |fields| && !ShouldShow(fields[i], answers)
    ensures Visible(fields, answers) == Visible(fields[..i] + fields[i + 1..], answers)
  {
    var pre, post := fields[..i], fields[i + 1..];
    assert fields == pre + [fields[i]] + post;
    VisibleAppend(pre + [fields[i]], post, answers);
    VisibleAppend(pre, [fields[i]], answers);
    VisibleSingle(fields[i], answers);
    assert Visible(pre, answers) + [] == Visible(pre, answers);
    VisibleAppend(pre, post, answers);
  }
}
