/** `build_packet` (app.py:41-64): the plain-text submission packet. */
module Packet {
  import opened Wrappers
  import opened Text
  import opened Form

  /**
   * `build_packet` raises when the stored complaint text is the boolean True:
   * `(True or "").strip()` is `True.strip()`, and a bool has no `strip`.
   */
  datatype PacketError = StripOnBool

  const ComplaintHeader := "=== Copy/Paste Complaint Details ==="
  const DetailsHeader := "=== Key Details (for form filling) ==="
  const AttachmentsHeader := "=== Attachments Guidance ==="
  const NotesHeader := "=== Notes ==="
  const NoSubmitNote := "- This tool prepares a submission-ready packet; it does not submit on your behalf (OTP/portal checks)."
  const MaskNote := "- For demos, mask sensitive numbers (use last 4 digits)."

  /** `(answers.get("complaint_details") or "").strip()`. */
  function ComplaintText(answers: Answers): Result<string, PacketError>
  {
    match Get(answers, ComplaintKey)
    case None => Success(Strip(""))
    case Some(VBool(b)) => if b then Failure(StripOnBool) else Success(Strip(""))
    case Some(VText(s)) => if s == "" then Success(Strip("")) else Success(Strip(s))
  }

  /**
   * The complaint line fails only on a stored True; otherwise it is the
   * stripped text, or "" when the answer is absent, False or empty.
   */
  lemma ComplaintTextCases(answers: Answers)
    ensures ComplaintText(answers).Failure? <==>
      ComplaintKey in answers && answers[ComplaintKey] == VBool(true)
    ensures ComplaintKey in answers && answers[ComplaintKey].VText? ==>
      ComplaintText(answers) == Success(Strip(answers[ComplaintKey].s))
    ensures ComplaintKey !in answers || answers[ComplaintKey] == VBool(false) ==>
      ComplaintText(answers) == Success("")
  {
    StripSpec("");
  }

  /** `- label: value`, the value written as Python's `str()` of `answers.get(id)`. */
  function DetailLine(f: Field, answers: Answers): string
  {
    "- " + f.caption + ": " + StrOpt(Get(answers, f.id))
  }

  /** The "Key Details" lines: exactly one per visible field, in schema order. */
  function KeyDetails(fields: seq<Field>, answers: Answers): (r: seq<string>)
  {
    if fields == [] then []
    else
      var init, last := fields[..|fields| - 1], fields[|fields| - 1];
      KeyDetails(init, answers) + (if ShouldShow(last, answers) then [DetailLine(last, answers)] else [])
  }

  /** The key details are exactly one line per visible field, in the order of the visible fields. */
  lemma {:induction false} KeyDetailsPerVisibleField(fields: seq<Field>, answers: Answers)
    ensures |KeyDetails(fields, answers)| == |Visible(fields, answers)|
    ensures forall k :: 0 <= k < |KeyDetails(fields, answers)| ==>
      KeyDetails(fields, answers)[k] == DetailLine(Visible(fields, answers)[k], answers)
    decreases |fields|
  {
    if fields != [] {
      KeyDetailsPerVisibleField(fields[..|fields| - 1], answers);
    }
  }

  /** Scanning one more field adds its line when it is visible. */
  lemma KeyDetailsStep(fields: seq<Field>, i: nat, answers: Answers)
    requires i < |fields|
    ensures KeyDetails(fields[..i + 1], answers) ==
      KeyDetails(fields[..i], answers) + (if ShouldShow(fields[i], answers) then [DetailLine(fields[i], answers)] else [])
  {
    assert fields[..i + 1][..i] == fields[..i];
  }

  /** Two schemas with the same visible fields give the same key details. */
  lemma KeyDetailsFollowVisible(xs: seq<Field>, ys: seq<Field>, answers: Answers)
    requires Visible(xs, answers) == Visible(ys, answers)
    ensures KeyDetails(xs, answers) == KeyDetails(ys, answers)
  {
    var l, r := KeyDetails(xs, answers), KeyDetails(ys, answers);
    KeyDetailsPerVisibleField(xs, answers);
    KeyDetailsPerVisibleField(ys, answers);
    assert |l| == |r|;
    forall k | 0 <= k < |l|
      ensures l[k] == r[k]
    {
    }
  }

  /** The seven lines before the key details. */
  function Opening(schema: Schema, complaint: string): seq<string>
  {
    [ "Portal: " + schema.portalName,
      "Official form URL: " + schema.officialFormUrl,
      "",
      ComplaintHeader,
      complaint,
      "",
      DetailsHeader ]
  }

  /** The eight lines after the key details. */
  function Closing(a: Attachments): seq<string>
  {
    [ "",
      AttachmentsHeader,
      "- Allowed: " + Join(", ", a.allowedTypes),
      "- Max file size: " + Decimal(a.maxSizeMb) + " MB",
      "",
      NotesHeader,
      NoSubmitNote,
      MaskNote ]
  }

  /** The packet's lines, or the error `build_packet` raises. */
  function PacketLines(schema: Schema, answers: Answers): Result<seq<string>, PacketError>
  {
    match ComplaintText(answers)
    case Failure(e) => Failure(e)
    case Success(c) => Success(Opening(schema, c) + KeyDetails(schema.fields, answers) + Closing(schema.attachments))
  }

  /** The packet text: its lines joined with "\n". */
  function PacketText(schema: Schema, answers: Answers): Result<string, PacketError>
  {
    match PacketLines(schema, answers)
    case Failure(e) => Failure(e)
    case Success(lines) => Success(Join("\n", lines))
  }

  /** The "Key Details" loop of `build_packet`: appends one line per visible field, in schema order. */
  method AppendKeyDetails(lines: seq<string>, fields: seq<Field>, answers: Answers) returns (out: seq<string>)
    ensures out == lines + KeyDetails(fields, answers)
  {
    out := lines;
    for i := 0 to |fields|
      invariant out == lines + KeyDetails(fields[..i], answers)
    {
      var f := fields[i];
      ghost var done := KeyDetails(fields[..i], answers);
      KeyDetailsStep(fields, i, answers);
      if ShouldShow(f, answers) {
        out := out + [DetailLine(f, answers)];
        assert out == lines + (done + [DetailLine(f, answers)]);
      } else {
        assert done + [] == done;
      }
    }
    assert fields[..|fields|] == fields;
  }

  /** The attachment guidance and notes that close every packet. */
  method AppendClosing(lines: seq<string>, a: Attachments) returns (out: seq<string>)
    ensures out == lines + Closing(a)
  {
    out := lines + [""];
    out := out + [AttachmentsHeader];
    out := out + ["- Allowed: " + Join(", ", a.allowedTypes)];
    out := out + ["- Max file size: " + Decimal(a.maxSizeMb) + " MB"];
    out := out + [""];
    out := out + [NotesHeader];
    out := out + [NoSubmitNote];
    out := out + [MaskNote];
  }

  /** `build_packet`: appends the lines one by one, scanning the fields once, then joins them. */
  method BuildPacket(schema: Schema, answers: Answers) returns (r: Result<string, PacketError>)
    ensures r == PacketText(schema, answers)
  {
    var lines: seq<string> := [];
    lines := lines + ["Portal: " + schema.portalName];
    lines := lines + ["Official form URL: " + schema.officialFormUrl];
    lines := lines + [""];
    lines := lines + [ComplaintHeader];
    var stripped := ComplaintText(answers);
    if stripped.Failure? {
      return Failure(stripped.error);
    }
    var complaint := stripped.value;
    lines := lines + [complaint];
    lines := lines + [""];
    lines := lines + [DetailsHeader];
    assert lines == Opening(schema, complaint);
    lines := AppendKeyDetails(lines, schema.fields, answers);
    lines := AppendClosing(lines, schema.attachments);
    ghost var expected := Opening(schema, complaint) + KeyDetails(schema.fields, answers) + Closing(schema.attachments);
    assert PacketLines(schema, answers) == Success(expected);
    assert lines == expected;
    r := Success(Join("\n", lines));
  }

  /**
   * Layout of a packet that builds: 15 fixed lines plus one per visible
   * field; the complaint under its header; the key details in positions 7
   * onwards; the attachment and notes block at the end.
   */
  lemma PacketLayout(schema: Schema, answers: Answers)
    requires ComplaintText(answers).Success?
    ensures PacketLines(schema, answers).Success?
    ensures
      var lines := PacketLines(schema, answers).value;
      var visible := Visible(schema.fields, answers);
      && |lines| == 15 + |visible|
      && lines[0] == "Portal: " + schema.portalName
      && lines[1] == "Official form URL: " + schema.officialFormUrl
      && lines[2] == ""
      && lines[3] == ComplaintHeader
      && lines[4] == ComplaintText(answers).value
      && lines[5] == ""
      && lines[6] == DetailsHeader
      && (forall k :: 0 <= k < |visible| ==> lines[7 + k] == DetailLine(visible[k], answers))
      && lines[7 + |visible|..] == Closing(schema.attachments)
  {
    var c := ComplaintText(answers).value;
    var lines := PacketLines(schema, answers).value;
    var details := KeyDetails(schema.fields, answers);
    KeyDetailsPerVisibleField(schema.fields, answers);
    assert lines == Opening(schema, c) + details + Closing(schema.attachments);
    forall k | 0 <= k < |details|
      ensures lines[7 + k] == details[k]
    {
    }
    assert lines[7 + |details|..] == Closing(schema.attachments);
  }

  /** `build_packet` fails exactly when the stored complaint is the boolean True. */
  lemma PacketFailsOnlyOnBoolComplaint(schema: Schema, answers: Answers)
    ensures PacketText(schema, answers).Failure? <==>
      ComplaintKey in answers && answers[ComplaintKey] == VBool(true)
  {
    ComplaintTextCases(answers);
  }

  /**
   * A hidden field contributes no line, whatever stale answer it holds:
   * removing it from the schema leaves the key details unchanged.
   */
  lemma {:induction false} HiddenFieldNoLine(fields: seq<Field>, i: nat, answers: Answers)
    requires i < |fields| && !ShouldShow(fields[i], answers)
    ensures KeyDetails(fields, answers) == KeyDetails(fields[..i] + fields[i + 1..], answers)
  {
    VisibleSkipsHidden(fields, i, answers);
    KeyDetailsFollowVisible(fields, fields[..i] + fields[i + 1..], answers);
  }

  /**
   * When no line holds a newline of its own, the packet text splits back into
   * exactly its lines, so it has 15 lines plus one per visible field.
   */
  lemma {:induction false} PacketTextLines(schema: Schema, answers: Answers)
    requires PacketLines(schema, answers).Success?
    requires forall k :: 0 <= k < |PacketLines(schema, answers).value| ==>
      NoNewline(PacketLines(schema, answers).value[k])
    ensures PacketText(schema, answers).Success?
    ensures SplitLines(PacketText(schema, answers).value) == PacketLines(schema, answers).value
    ensures |SplitLines(PacketText(schema, answers).value)| == 15 + |Visible(schema.fields, answers)|
  {
    var lines := PacketLines(schema, answers).value;
    PacketLayout(schema, answers);
    SplitJoin(lines);
  }

  /** The complaint example: "  Hello  " is written to the packet as "Hello". */
  lemma HelloComplaint()
    ensures ComplaintText(map[ComplaintKey := VText("  Hello  ")]) == Success("Hello")
  {
    var s := "  Hello  ";
    assert s[2..][0] == 'H' && s[1..][1..] == s[2..];
    assert LeadingSpaces(s[1..]) == 1;
    assert s[..7][6] == 'o' && s[..8][..7] == s[..7];
    assert TrailingSpaces(s[..8]) == 1;
    assert LeadingSpaces(s) == 2 && TrailingSpaces(s) == 2;
    assert Strip(s) == s[2..7] == "Hello";
    var answers := map[ComplaintKey := VText(s)];
    assert Get(answers, ComplaintKey) == Some(VText(s));
  }
}
