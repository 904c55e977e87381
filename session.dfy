/**
 * The answer store of one form session and `render_input` (app.py:18-30),
 * which draws one field's control and writes the control's value back into
 * the store. The Streamlit controls are modelled as a `Control` value; what
 * the control hands back on this pass is a parameter (`ticked` for a
 * checkbox, `typed` for a text control).
 */
module Session {
  import opened Wrappers
  import opened Form

  const ComplaintAreaHeight: nat := 160

  /** The control `render_input` draws and the value it is initialised with. */
  datatype Control =
    | Checkbox(caption: string, initiallyTicked: bool)
    | TextInput(caption: string, initialText: Value)
    | TextArea(caption: string, initialText: Value, height: nat)

  /** Python's `bool()` of a stored answer. */
  function Truthy(v: Value): bool
  {
    match v
    case VBool(b) => b
    case VText(s) => s != ""
  }

  /**
   * The control drawn for `f`: a checkbox for "bool", a text box for "text"
   * (a multi-line one for the complaint), none for any other type. Each
   * starts from the stored answer: a checkbox is ticked when that answer is
   * truthy, a text control shows the stored answer or "".
   */
  function ControlFor(f: Field, answers: Answers): Option<Control>
  {
    if f.ftype == "bool" then
      Some(Checkbox(f.caption, Truthy(GetOr(answers, f.id, VBool(false)))))
    else if f.ftype == "text" then
      if f.id == ComplaintKey then
        Some(TextArea(f.caption, GetOr(answers, f.id, VText("")), ComplaintAreaHeight))
      else
        Some(TextInput(f.caption, GetOr(answers, f.id, VText(""))))
    else None
  }

  /** The warning shown for a field whose type has no control. */
  function UnsupportedWarning(ftype: string): string
  {
    "Unsupported field type: " + ftype
  }

  /**
   * Every control starts from the stored answer: a checkbox shows a stored
   * boolean as it is, a text control shows the stored text. So a control the
   * user leaves untouched hands back the answer already stored, and the
   * render pass writes the same answer again.
   */
  lemma {:induction false} ControlShowsStoredAnswer(f: Field, answers: Answers)
    requires f.id in answers
    ensures f.ftype == "bool" && answers[f.id].VBool? ==>
      ControlFor(f, answers) == Some(Checkbox(f.caption, answers[f.id].b))
    ensures f.ftype == "text" ==>
      ControlFor(f, answers).Some? && !ControlFor(f, answers).value.Checkbox? &&
      ControlFor(f, answers).value.initialText == answers[f.id]
  {
  }

  /**
   * An unanswered field starts from the defaults: an unticked checkbox, or an
   * empty text control. A checkbox over stale text starts ticked exactly when
   * that text is non-empty, as Python's `bool()` of a string is.
   */
  lemma {:induction false} ControlDefaults(f: Field, answers: Answers)
    ensures f.ftype == "bool" && f.id !in answers ==>
      ControlFor(f, answers) == Some(Checkbox(f.caption, false))
    ensures f.ftype == "bool" && f.id in answers && answers[f.id].VText? ==>
      ControlFor(f, answers) == Some(Checkbox(f.caption, answers[f.id].s != ""))
    ensures f.ftype == "text" && f.id !in answers ==>
      ControlFor(f, answers).Some? && !ControlFor(f, answers).value.Checkbox? &&
      ControlFor(f, answers).value.initialText == VText("")
  {
  }

  /**
   * A control left as it was drawn keeps the stored answer: rendering a
   * boolean answer through a checkbox that returns its initial state, or a
   * text answer through a text control that returns its initial text, leaves
   * the answers unchanged.
   */
  lemma {:induction false} UntouchedControlKeepsAnswer(
    f: Field, answers: Answers, ticked: Control -> bool, typed: Control -> string)
    requires f.id in answers
    requires f.ftype == "bool" ==> answers[f.id].VBool?
    requires f.ftype == "text" ==> answers[f.id].VText?
    requires forall c: Control :: c.Checkbox? ==> ticked(c) == c.initiallyTicked
    requires forall c: Control :: !c.Checkbox? && c.initialText.VText? ==> typed(c) == c.initialText.s
    ensures f.ftype == "bool" ==>
      answers[f.id := VBool(ticked(ControlFor(f, answers).value))] == answers
    ensures f.ftype == "text" ==>
      answers[f.id := VText(typed(ControlFor(f, answers).value))] == answers
  {
    ControlShowsStoredAnswer(f, answers);
  }

  /** One user's session: the answer map that every render pass reads and updates in place. */
  class FormSession {
    var answers: Answers

    /** A new session starts with no answers. */
    constructor ()
      ensures answers == map[]
    {
      answers := map[];
    }

    /**
     * `render_input`: a "bool" field stores what its checkbox returns, a
     * "text" field what its text control returns, each under the field's id;
     * any other type only yields the warning and leaves the answers as they
     * were. No other answer changes in any case.
     */
    method RenderInput(f: Field, ticked: Control -> bool, typed: Control -> string)
      returns (warning: Option<string>)
      modifies this
      ensures warning == if f.ftype == "bool" || f.ftype == "text" then None else Some(UnsupportedWarning(f.ftype))
      ensures f.ftype == "bool" ==>
        answers == old(answers)[f.id := VBool(ticked(ControlFor(f, old(answers)).value))]
      ensures f.ftype == "text" ==>
        answers == old(answers)[f.id := VText(typed(ControlFor(f, old(answers)).value))]
      ensures f.ftype != "bool" && f.ftype != "text" ==> answers == old(answers)
      ensures forall k :: k != f.id ==> (k in answers <==> k in old(answers))
      ensures forall k :: k != f.id && k in answers ==> answers[k] == old(answers)[k]
    {
      warning := None;
      if f.ftype == "bool" {
        var checked := ticked(Checkbox(f.caption, Truthy(GetOr(answers, f.id, VBool(false)))));
        answers := answers[f.id := VBool(checked)];
      } else if f.ftype == "text" {
        var entered: string;
        if f.id == ComplaintKey {
          entered := typed(TextArea(f.caption, GetOr(answers, f.id, VText("")), ComplaintAreaHeight));
        } else {
          entered := typed(TextInput(f.caption, GetOr(answers, f.id, VText(""))));
        }
        answers := answers[f.id := VText(entered)];
      } else {
        warning := Some(UnsupportedWarning(f.ftype));
      }
    }
  }

  /**
   * After `render_input` on `f`, every field whose rule does not name `f`
   * keeps its visibility: a render pass changes only the fields that depend
   * on the field just drawn.
   */
  lemma {:induction false} RenderKeepsUnrelatedVisibility(
    f: Field, g: Field, before: Answers, after: Answers)
    requires forall k :: k != f.id ==> (k in after <==> k in before)
    requires forall k :: k != f.id && k in after ==> after[k] == before[k]
    requires g.showIf.None? || g.showIf.value.field != f.id
    ensures ShouldShow(g, after) == ShouldShow(g, before)
  {
  }
}
