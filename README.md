# BFSI grievance filing companion: conditional form and submission packet

This project models the form logic of a single-page assistant for filing a
regulatory grievance with an insurance portal. It is written in Dafny and proves
properties of the model. A schema lists the form's fields in order. Each field
has an id, a label, a type (`bool`, `text` or something unsupported), an
optional `required` flag and an optional `show_if` rule `{field, equals}`. The
user's answers live in one map per session. The model covers four operations
of `app.py`:

- `should_show`: is a field visible under the current answers?
- `validate`: the labels of the visible, required fields whose answer is blank.
- `build_packet`: the plain-text submission packet. It has a portal header,
  the trimmed complaint text and one `- label: value` line per visible field.
  It ends with attachment guidance and a fixed notes block.
- `render_input`: draws one field's control and writes the value it returns
  back into the answer map.

Modules, leaf to root:

- `Wrappers`: `Option` and `Result`.
- `Text`: the Python string behaviour the code relies on: `str.strip()` with
  Python's whitespace set, `sep.join` and `str()` of a non-negative integer.
  It also holds `SplitLines`, a split at newlines. The code never calls it; it
  serves as a reference for counting the lines of the joined packet.
- `Form`: the data model (`Value`, `Rule`, `Field`, `Attachments`, `Schema`,
  `Answers`), Python `str()` of an answer, `ShouldShow` and the
  visible-field filter `Visible`.
- `Validation`: `Validate`, a loop method, checked against the specification
  function `Missing`.
- `Packet`: `BuildPacket`, built from line appends and a loop, checked against
  `PacketLines` / `PacketText`.
- `Session`: the `FormSession` class, whose `answers` map `RenderInput`
  updates in place.

Modelling choices:

- Answers are `VBool(b)` or `VText(s)`, the only values `render_input` stores.
  Python's `str()` gives `"True"`, `"False"`, the text itself, and `"None"` for
  a missing answer. That last case arises in `build_packet`, which uses
  `answers.get(id)`. `validate` uses `answers.get(id, "")`, so there a missing
  answer reads as the empty string.
- The schema's `label` is called `caption`, because `label` is a reserved word
  in Dafny. The schema's `type` is `ftype` and stays a string, as in the
  source.
- `should_show` returns true when `show_if` is absent or empty (`not rule`).
  `Field.showIf` is `None` in both cases.
- In `build_packet`, the complaint expression
  `(answers.get("complaint_details") or "").strip()` raises for a stored `True`,
  because a bool has no `strip`. The model returns
  `Failure(StripOnBool)` in that case. A stored `False`, a missing answer and
  `""` all give the empty line.
- The `render_input` widgets are a `Control` value that carries the caption
  and the initial value the control shows. What the control hands back on
  this pass is a parameter: `ticked` for the checkbox, `typed` for the text
  controls.
- `render_input` is the only place that checks the field type
  (app.py:21-30). `validate` and `build_packet` do not. So a field of an
  unsupported type still gets a `- label: value` line, and it is reported
  missing when it is visible, required and blank. `Validation.Missing` and
  `Packet.KeyDetails` do the same.

Where each source function is defined in the model:

- `should_show` is `Form.ShouldShow`.
- `validate` is `Validation.Validate`, specified by `Validation.Missing`.
- `build_packet` is `Packet.BuildPacket`, specified by `Packet.PacketLines`
  and `Packet.PacketText`. Its key-details loop is `Packet.AppendKeyDetails`
  over `Packet.KeyDetails`.
- `render_input` is `Session.FormSession.RenderInput`, with the control it
  draws given by `Session.ControlFor`.
- Python's `strip()` is `Text.Strip`, `sep.join` is `Text.Join`, and `str()`
  of an integer is `Text.Decimal`.

## Model

| member | source | states |
|---|---|---|
| `Form.NoRuleVisible` | app.py:13-15 | a field with no `show_if` rule is always visible |
| `Form.RuleVisibleIff` | app.py:16 | with a rule, the field is visible iff the named field is answered and its answer equals the rule's value (both directions) |
| `Form.UnansweredDependencyHides` | app.py:16 | if the rule's field is unanswered, the field is hidden |
| `Form.VisibilityFrame` | app.py:12-16 | visibility reads only the answer its rule names; writing any other key leaves it unchanged |
| `Form.VisibleMembership` | app.py:34-36 | a field is kept by the `should_show` filter iff it is in the schema and visible |
| `Form.VisibleAppend` | app.py:34-36 | the filter keeps schema order: filtering a concatenation concatenates the filtered parts |
| `Form.VisibleSingle` | app.py:35-36 | filtering one field keeps it iff it is visible |
| `Form.VisibleSkipsHidden` | app.py:35-36 | deleting a hidden field from the schema does not change the visible fields |
| `Text.LeadingSpaces` | app.py:37 | the length of the longest whitespace prefix; the next character, if any, is not whitespace |
| `Text.TrailingSpaces` | app.py:37 | the length of the longest whitespace suffix; the character before it, if any, is not whitespace |
| `Text.StripSpec` | app.py:37 | `strip()` gives a slice of its input cut only at whitespace, with no whitespace at either end; it is empty iff the input is all whitespace |
| `Text.StripUntrimmed` | app.py:47 | a string with no whitespace at either end is unchanged by `strip()` |
| `Text.StripIdempotent` | app.py:47 | stripping twice equals stripping once |
| `Text.SplitJoin` | app.py:64 | `"\n".join` of newline-free lines splits back into exactly those lines |
| `Text.Decimal` | app.py:59 | `str()` of a non-negative integer is a non-empty run of decimal digits with no leading zero |
| `Text.DecimalRoundTrip` | app.py:59 | the decimal digits read back as the number |
| `Validation.BlankIff` | app.py:37 | `not str(v).strip()` holds iff `v` is text made only of whitespace; a boolean, true or false, is never blank |
| `Validation.IsMissingIff` | app.py:35-37 | a field is flagged iff it is visible, required, and unanswered or answered with whitespace-only text |
| `Validation.BoolAnswerNeverMissing` | app.py:37 | a field holding a boolean answer is never flagged, whatever its value |
| `Validation.UnansweredRequiredMissing` | app.py:37 | a visible required field with no answer is flagged |
| `Validation.Validate` | app.py:32-39 | the scan returns exactly `Missing(fields, answers)`; the loop invariant carries the prefix already scanned |
| `Validation.MissingAppend` | app.py:34-38 | the report keeps schema order: the report on a concatenation is the concatenation of the reports |
| `Validation.MissingSingle` | app.py:35-38 | the report on one field is its label when it is flagged, and empty otherwise |
| `Validation.MissingMembership` | app.py:32-39 | a label is reported iff some field carrying it is flagged (both directions) |
| `Validation.MissingOnlyVisible` | app.py:35-36 | the report over all fields equals the report over the visible fields |
| `Validation.HiddenFieldIgnored` | app.py:35-36 | a hidden field, whatever stale answer it holds, can be removed from the schema without changing the report |
| `Validation.MissingBound` | app.py:32-39 | at most one label per visible field is reported |
| `Validation.PolicyNumberScenario` | app.py:32-39 | a required `policy_number` shown only when `has_policy` is true is not reported while `has_policy` is false, and is reported as "Policy Number" once `has_policy` is true |
| `Packet.ComplaintTextCases` | app.py:47 | the complaint line fails only on a stored `True`; it is the stripped text for a text answer, and "" when the answer is absent or `False` |
| `Packet.KeyDetailsPerVisibleField` | app.py:50-54 | the key details have exactly one `- label: value` line per visible field, in the order of the visible fields |
| `Packet.KeyDetailsStep` | app.py:50-54 | scanning one more field adds its line iff it is visible |
| `Packet.KeyDetailsFollowVisible` | app.py:50-54 | two schemas with the same visible fields give the same key details |
| `Packet.AppendKeyDetails` | app.py:50-54 | the loop appends exactly `KeyDetails(fields, answers)` to the lines built so far |
| `Packet.BuildPacket` | app.py:41-64 | the method gives exactly `PacketText`: the lines joined with "\n", or the error on a stored `True` complaint |
| `Packet.PacketLayout` | app.py:42-64 | the packet has 15 + (number of visible fields) lines: portal and URL first, a blank line, the trimmed complaint under its header, a blank line, the visible fields' lines from position 7 in schema order, then the closing block |
| `Packet.PacketFailsOnlyOnBoolComplaint` | app.py:47 | `build_packet` fails exactly when the stored complaint is `True` |
| `Packet.HiddenFieldNoLine` | app.py:50-54 | a hidden field contributes no line, even when it holds a stale answer |
| `Packet.PacketTextLines` | app.py:64 | when no line holds a newline of its own, the packet text has exactly 15 + (number of visible fields) lines, and they are the packet lines |
| `Packet.HelloComplaint` | app.py:47 | the complaint "  Hello  " is written as "Hello" |
| `Session.ControlShowsStoredAnswer` | app.py:21-28 | each control starts from the stored answer: a checkbox shows a stored boolean as it is, and a text control (multi-line or not) shows the stored text |
| `Session.ControlDefaults` | app.py:22-28 | an unanswered field starts unticked or empty; a checkbox over stored text starts ticked iff the text is non-empty, as Python's `bool()` of a string is |
| `Session.UntouchedControlKeepsAnswer` | app.py:21-28 | a control left as it was drawn hands back the stored answer, so writing it back leaves the answer map unchanged |
| `Session.FormSession.constructor` | app.py:71-72 | a new session starts with an empty answer map |
| `Session.FormSession.RenderInput` | app.py:18-30 | a "bool" field stores the checkbox's value and a "text" field the text control's value under its id; any other type gives the warning and changes nothing; no other key changes |
| `Session.RenderKeepsUnrelatedVisibility` | app.py:12-30 | after a write that touches only `f.id`, every field whose rule names another field keeps its visibility |

## Left out

- Streamlit itself: page set-up, title, subheaders, `st.warning`, `st.error`,
  `st.success`, `st.button`, `st.code` and `st.info` (app.py:66-91). These are
  UI calls. The values the controls return are parameters of
  `RenderInput`, and the warning text is its result.
- The top-level render pass (app.py:76-91) that calls `render_input` on
  each visible field and then `validate`. It is UI control flow.
  `RenderKeepsUnrelatedVisibility` states what one of its steps preserves.
- `load_schema` (app.py:8-10) reads and parses a JSON file. The model takes an
  already-parsed `Schema`. A missing key in a malformed schema, which would
  raise `KeyError`, is not modelled.
- Creating the output directories, the UTC timestamp, and writing the packet
  and the JSON session log (app.py:93-101). These are file-system and clock I/O.
- JSON values other than booleans and strings in answers or in `show_if.equals`
  (null, numbers, lists). `render_input` never stores them.
- `Text.Decimal`: `max_size_mb` is a non-negative integer. Python's rendering
  of a float (`5.0`) is not modelled.
- `Strip`: Python's whitespace set is written out character by character, as
  `str.isspace()` defines it. Unicode normalisation is not modelled.
