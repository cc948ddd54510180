/** The prompt builder: the fixed system instruction, the two worked examples and the
    rendering of a brief (ai-event-planner/prompts.py). */
module Prompts {
  import opened Text
  import PromptProse

  /** A value of the brief dictionary, as the f-strings render it: text, a Python int, or a
      Python float that holds a whole number (the form's budget after `float(budget)`). */
  datatype Value = Str(s: string) | Int(n: int) | Float(whole: int)

  /** The brief: a dictionary from field names to values. */
  type Brief = map<string, Value>

  /** `f"{v}"` */
  function Show(v: Value): string {
    match v
    case Str(s) => s
    case Int(n) => Decimal(n)
    case Float(w) => Decimal(w) + ".0"
  }

  /** Python truthiness of a value: non-empty text, a non-zero number. */
  predicate Truthy(v: Value) {
    match v
    case Str(s) => s != ""
    case Int(n) => n != 0
    case Float(w) => w != 0
  }

  /** `f"{brief.get(key, '')}"`: a missing key renders as nothing. */
  function Field(b: Brief, key: string): string {
    if key in b then Show(b[key]) else ""
  }

  const Header := "# New Event Brief"
  const Closing := "Please generate a fully structured plan following the required sections."

  /** The six fields of a brief, by dictionary key and by the label that precedes the value. */
  const Keys: seq<string> := ["event_type", "guest_count", "budget", "theme", "duration", "special_considerations"]
  const Labels: seq<string> := ["Event Type: ", "Guest Count: ", "Budget: $", "Theme/Style: ", "Duration: ", "Special Considerations: "]

  /** The lines of a formatted brief before the closing sentence: the heading, the six
      labelled fields in their fixed order, and a blank line. */
  function BriefLines(b: Brief): (ls: seq<string>)
    ensures |ls| == 8 && ls[0] == Header && ls[7] == ""
    ensures forall i | 0 <= i < 6 :: ls[i + 1] == Labels[i] + Field(b, Keys[i])
  {
    [Header] + seq(6, i requires 0 <= i < 6 => Labels[i] + Field(b, Keys[i])) + [""]
  }

  /** The brief as the formatter writes it: the `BriefLines`, each ended by a newline, then the
      closing request. */
  function FormatUserBrief(b: Brief): (r: string)
    ensures StartsWith(r, Header + "\n")
    ensures EndsWith(r, Closing)
  {
    Terminated(BriefLines(b)) + Closing
  }

  /** When no field value holds a newline, splitting the formatted brief on newlines gives
      the heading, the six labelled fields in their fixed order, and a blank line. */
  lemma BriefLinesInOrder(b: Brief)
    requires forall j | 0 <= j < 6 :: NoNewline(Field(b, Keys[j]))
    ensures Split(FormatUserBrief(b)) == BriefLines(b) + Split(Closing)
  {
    var ls := BriefLines(b);
    assert NoNewline(Header);
    assert forall j | 0 <= j < 6 :: NoNewline(Labels[j]) by {
      assert NoNewline("Event Type: ") && NoNewline("Guest Count: ") && NoNewline("Budget: $");
      assert NoNewline("Theme/Style: ") && NoNewline("Duration: ") && NoNewline("Special Considerations: ");
    }
    forall j | 0 <= j < 8 ensures NoNewline(ls[j]) {
      if 1 <= j < 7 { NoNewlineConcat(Labels[j - 1], Field(b, Keys[j - 1])); }
    }
    SplitTerminated(ls, Closing);
  }

  /** A key missing from the brief is no error: its line is the bare label. */
  lemma MissingFieldRendersEmpty(b: Brief, i: nat)
    requires i < 6 && Keys[i] !in b
    requires forall j | 0 <= j < 6 :: NoNewline(Field(b, Keys[j]))
    ensures i + 1 < |Split(FormatUserBrief(b))| && Split(FormatUserBrief(b))[i + 1] == Labels[i]
  {
    BriefLinesInOrder(b);
    assert Labels[i] + "" == Labels[i];
  }

  /** Whatever the brief holds, the budget value is written right after `Budget: $` and
      ends its line. */
  lemma BudgetFollowsDollarSign(b: Brief)
    ensures var r, v, p := FormatUserBrief(b), Field(b, "budget"), |Terminated(BriefLines(b)[..3])| + 9;
            9 <= p && p + |v| < |r| && r[p - 9..p] == "Budget: $" && r[p..p + |v|] == v && r[p + |v|] == '\n'
  {
    var ls := BriefLines(b);
    var t, v, q := Terminated(ls), Field(b, "budget"), |Terminated(ls[..3])|;
    TerminatedLineAt(ls, 3);
    assert ls[3] == "Budget: $" + v;
    PrefixSlice(t, Closing, q, q + |ls[3]| + 1);
    SplitSlice(t, q, "Budget: $", v);
  }

  datatype Role = User | Model

  /** One turn of the worked-example conversation: who speaks and its one text part. */
  datatype Turn = Turn(role: Role, text: string)

  const PicnicBrief: Brief := map[
    "event_type" := Str("Picnic"),
    "guest_count" := Int(10),
    "budget" := Int(200),
    "theme" := Str("Cottagecore"),
    "duration" := Str("3 hours"),
    "special_considerations" := Str("park setting; shade preferred; vegetarian options")]

  const PoolPartyBrief: Brief := map[
    "event_type" := Str("Pool Party"),
    "guest_count" := Int(50),
    "budget" := Int(500),
    "theme" := Str("4th of July"),
    "duration" := Str("4 hours"),
    "special_considerations" := Str("outdoors; safety supervision; simple DIY décor")]

  /** Two worked examples as a conversation: each brief, formatted, as the user's turn and
      its plan as the model's reply. */
  function Shots(brief1: Brief, plan1: string, brief2: Brief, plan2: string): (r: seq<Turn>)
    ensures |r| == 4
    ensures r[0].role == User && r[1].role == Model && r[2].role == User && r[3].role == Model
    ensures r[0].text == FormatUserBrief(brief1) && r[1].text == plan1
    ensures r[2].text == FormatUserBrief(brief2) && r[3].text == plan2
  {
    [Turn(User, FormatUserBrief(brief1)), Turn(Model, plan1),
     Turn(User, FormatUserBrief(brief2)), Turn(Model, plan2)]
  }

  /** The worked examples: the Picnic brief and the Pool Party brief, each with its plan. */
  function FewShotExamples(): seq<Turn> {
    Shots(PicnicBrief, PromptProse.PicnicPlan(), PoolPartyBrief, PromptProse.PoolPartyPlan())
  }

  /** The six sections every plan must have, in the required order, and the hint given for each. */
  const SectionTitles: seq<string> := ["Event Details", "Timeline of Preparation", "Suggested Activities/Entertainment",
                                       "Food and Drinks Suggestions", "Venue and Decoration Ideas", "Backup options"]
  /** The numbered line of section `i` (counting from 0), numbered from 1, with its hint. */
  function SectionLine(i: nat, notes: seq<string>): string
    requires i < 6 && |notes| == 6
  {
    Decimal(i + 1) + ") " + SectionTitles[i] + " (" + notes[i] + ")"
  }

  function SectionLines(notes: seq<string>): (ls: seq<string>)
    requires |notes| == 6
    ensures |ls| == 6 && forall i | 0 <= i < 6 :: ls[i] == SectionLine(i, notes)
  {
    seq(6, i requires 0 <= i < 6 => SectionLine(i, notes))
  }

  /** The layout of the system instruction: an introduction, the numbered sections, a blank
      line and the constraint lines. */
  function Instruction(intro: string, notes: seq<string>, constraints: seq<string>): string
    requires |notes| == 6
  {
    (intro + "\n") + Terminated(SectionLines(notes)) + ("\n" + Terminated(constraints))
  }

  /** The fixed system instruction. */
  function SystemPrompt(): string {
    Instruction(PromptProse.Intro, PromptProse.SectionNotes, PromptProse.ConstraintLines)
  }

  /** Where the line of section `i` starts in an instruction with the given introduction. */
  ghost function SectionOffset(intro: string, notes: seq<string>, i: nat): nat
    requires i < 6 && |notes| == 6
  {
    |intro| + 1 + |Terminated(SectionLines(notes)[..i])|
  }

  /** The line of section `i` stands whole in the instruction at `SectionOffset`. */
  lemma SectionLineInInstruction(intro: string, notes: seq<string>, constraints: seq<string>, i: nat)
    requires i < 6 && |notes| == 6
    ensures var s, p, line := Instruction(intro, notes, constraints), SectionOffset(intro, notes, i), SectionLine(i, notes);
            0 < p && p + |line| < |s| && s[p - 1] == '\n' && s[p..p + |line|] == line && s[p + |line|] == '\n'
  {
    var ls := SectionLines(notes);
    LineInBlock(intro + "\n", ls, "\n" + Terminated(constraints), i);
    assert ls[i] == SectionLine(i, notes);
  }

  /** Any instruction of this layout lists its sections as whole lines, numbered 1) to 6), in
      the required order. */
  lemma InstructionListsSectionsInOrder(intro: string, notes: seq<string>, constraints: seq<string>)
    requires |notes| == 6
    ensures forall i | 0 <= i < 6 ::
      var s, p, line := Instruction(intro, notes, constraints), SectionOffset(intro, notes, i), SectionLine(i, notes);
      0 < p && p + |line| < |s| && s[p - 1] == '\n' && s[p..p + |line|] == line && s[p + |line|] == '\n'
    ensures forall i | 0 <= i < 5 :: SectionOffset(intro, notes, i) < SectionOffset(intro, notes, i + 1)
    ensures forall i | 0 <= i < 6 :: StartsWith(SectionLine(i, notes), Decimal(i + 1) + ") " + SectionTitles[i])
  {
    forall i | 0 <= i < 6
      ensures var s, p, line := Instruction(intro, notes, constraints), SectionOffset(intro, notes, i), SectionLine(i, notes);
              0 < p && p + |line| < |s| && s[p - 1] == '\n' && s[p..p + |line|] == line && s[p + |line|] == '\n'
    {
      SectionLineInInstruction(intro, notes, constraints, i);
    }
    forall i | 0 <= i < 5 ensures SectionOffset(intro, notes, i) < SectionOffset(intro, notes, i + 1) {
      TerminatedOffsetsIncrease(SectionLines(notes), i);
    }
  }

  /** The system prompt lists its six sections as whole lines, numbered 1) to 6), in the
      required order: Event Details first, Backup options last. */
  lemma SystemPromptListsSectionsInOrder()
    ensures forall i | 0 <= i < 6 ::
      var s, p, line := SystemPrompt(), SectionOffset(PromptProse.Intro, PromptProse.SectionNotes, i), SectionLine(i, PromptProse.SectionNotes);
      0 < p && p + |line| < |s| && s[p - 1] == '\n' && s[p..p + |line|] == line && s[p + |line|] == '\n'
    ensures forall i | 0 <= i < 5 :: SectionOffset(PromptProse.Intro, PromptProse.SectionNotes, i) < SectionOffset(PromptProse.Intro, PromptProse.SectionNotes, i + 1)
    ensures forall i | 0 <= i < 6 :: StartsWith(SectionLine(i, PromptProse.SectionNotes), Decimal(i + 1) + ") " + SectionTitles[i])
    ensures SectionTitles[0] == "Event Details" && SectionTitles[5] == "Backup options"
  {
    InstructionListsSectionsInOrder(PromptProse.Intro, PromptProse.SectionNotes, PromptProse.ConstraintLines);
  }
}
