/** The planner's pure rules (ai-event-planner/app.py): reading the API key, turning the form
    into a brief and checking it, assembling the full prompt, reading the model's reply, the
    "Error" gate in front of the stored plan, and the three refinement requests. */
module Planner {
  import opened Text
  import opened Prompts
  import PromptProse

  // ---------------------------------------------------------------------------------------
  // The API key

  const ApiKeyName := "GEMINI_API_KEY"

  /** `os.getenv("GEMINI_API_KEY", "").strip()` over the environment `env`. */
  function ApiKey(env: map<string, string>): string {
    Strip(if ApiKeyName in env then env[ApiKeyName] else "", Whitespace)
  }

  /** The app stops for want of a key exactly when the variable is unset or holds nothing but
      whitespace. */
  lemma ApiKeyMissingIff(env: map<string, string>)
    ensures ApiKey(env) == "" <==>
            ApiKeyName !in env || forall k | 0 <= k < |env[ApiKeyName]| :: env[ApiKeyName][k] in Whitespace
  {
    StripEmptyIff(if ApiKeyName in env then env[ApiKeyName] else "", Whitespace);
  }

  // ---------------------------------------------------------------------------------------
  // The form and the brief

  /** What the form holds when it is submitted. The two number inputs give whole numbers. */
  datatype Form = Form(eventType: string, guestCount: int, budget: int, theme: string,
                       duration: string, special: string)

  /** The brief dictionary holding six values, in the order of `Keys`. */
  function BriefOf(vs: seq<Value>): (b: Brief)
    requires |vs| == 6
    ensures forall i | 0 <= i < 6 :: Keys[i] in b && b[Keys[i]] == vs[i]
    ensures forall k | k in b :: k in Keys
  {
    map[Keys[0] := vs[0], Keys[1] := vs[1], Keys[2] := vs[2],
        Keys[3] := vs[3], Keys[4] := vs[4], Keys[5] := vs[5]]
  }

  /** `all(brief.values())` */
  predicate AllTruthy(b: Brief) {
    forall k | k in b :: Truthy(b[k])
  }

  /** A brief of six values passes `all(...)` exactly when each of the six values is truthy. */
  lemma BriefOfTruthyIff(vs: seq<Value>)
    requires |vs| == 6
    ensures AllTruthy(BriefOf(vs)) <==>
            Truthy(vs[0]) && Truthy(vs[1]) && Truthy(vs[2]) && Truthy(vs[3]) && Truthy(vs[4]) && Truthy(vs[5])
  {
    var b := BriefOf(vs);
    if Truthy(vs[0]) && Truthy(vs[1]) && Truthy(vs[2]) && Truthy(vs[3]) && Truthy(vs[4]) && Truthy(vs[5]) {
      forall k | k in b ensures Truthy(b[k]) {
        var i :| 0 <= i < 6 && Keys[i] == k;
      }
    }
  }

  /** The brief built from the form: the four texts stripped, the guest count as an int and
      the budget as a float. */
  function FormBrief(f: Form): Brief {
    BriefOf([Str(Strip(f.eventType, Whitespace)), Int(f.guestCount), Float(f.budget),
             Str(Strip(f.theme, Whitespace)), Str(Strip(f.duration, Whitespace)), Str(Strip(f.special, Whitespace))])
  }

  /** The text has a character that is not whitespace. */
  predicate HasText(s: string) {
    exists k | 0 <= k < |s| :: s[k] !in Whitespace
  }

  /** The brief of a form passes `all(brief.values())` exactly when no stripped text is empty
      and neither number is zero. */
  lemma FormBriefTruthyIff(f: Form)
    ensures AllTruthy(FormBrief(f)) <==>
            Strip(f.eventType, Whitespace) != "" && f.guestCount != 0 && f.budget != 0 &&
            Strip(f.theme, Whitespace) != "" && Strip(f.duration, Whitespace) != "" && Strip(f.special, Whitespace) != ""
  {
    var vs := [Str(Strip(f.eventType, Whitespace)), Int(f.guestCount), Float(f.budget),
               Str(Strip(f.theme, Whitespace)), Str(Strip(f.duration, Whitespace)), Str(Strip(f.special, Whitespace))];
    BriefOfTruthyIff(vs);
  }

  /** A submitted form is accepted exactly when each of the four texts has a character other
      than whitespace and neither number is zero; a budget of 0, which the form allows, is
      refused. */
  lemma FormAcceptedIff(f: Form)
    ensures AllTruthy(FormBrief(f)) <==>
            HasText(f.eventType) && f.guestCount != 0 && f.budget != 0 &&
            HasText(f.theme) && HasText(f.duration) && HasText(f.special)
  {
    FormBriefTruthyIff(f);
    StripEmptyIff(f.eventType, Whitespace);
    StripEmptyIff(f.theme, Whitespace);
    StripEmptyIff(f.duration, Whitespace);
    StripEmptyIff(f.special, Whitespace);
  }

  /** A budget stored as a float is written into the brief as its digits and `.0`, right
      after `Budget: $` and at the end of its line; the form's brief stores the budget so. */
  lemma FloatBudgetLine(b: Brief, w: int)
    requires "budget" in b && b["budget"] == Float(w)
    ensures var r, v, p := FormatUserBrief(b), Decimal(w) + ".0", |Terminated(BriefLines(b)[..3])| + 9;
            9 <= p && p + |v| < |r| && r[p - 9..p] == "Budget: $" && r[p..p + |v|] == v && r[p + |v|] == '\n'
  {
    assert Field(b, "budget") == Decimal(w) + ".0";
    BudgetFollowsDollarSign(b);
  }

  // ---------------------------------------------------------------------------------------
  // The full prompt

  /** The text part of each worked-example turn, in order. */
  function ShotTexts(shots: seq<Turn>): (r: seq<string>)
    ensures |r| == |shots| && forall j | 0 <= j < |shots| :: r[j] == shots[j].text
  {
    seq(|shots|, j requires 0 <= j < |shots| => shots[j].text)
  }

  const Gap := "\n\n"

  /** The layout of the full prompt: the instruction, the worked examples and the brief,
      separated by blank lines. */
  function FullPrompt(system: string, shots: seq<string>, brief: string): string {
    system + Gap + Join(Gap, shots) + Gap + brief
  }

  /** The prompt sent for a brief. */
  function BuildFullPrompt(b: Brief): string {
    FullPrompt(SystemPrompt(), ShotTexts(FewShotExamples()), FormatUserBrief(b))
  }

  /** Where worked example `j` starts in a full prompt. */
  function ShotOffset(system: string, shots: seq<string>, j: nat): nat
    requires j < |shots|
  {
    |system| + |Gap| + JoinOffset(Gap, shots, j)
  }

  /** Worked example `j` stands whole in a full prompt at its offset. */
  lemma ShotInFullPrompt(system: string, shots: seq<string>, brief: string, j: nat)
    requires j < |shots|
    ensures ShotOffset(system, shots, j) + |shots[j]| <= |FullPrompt(system, shots, brief)|
    ensures FullPrompt(system, shots, brief)[ShotOffset(system, shots, j)..ShotOffset(system, shots, j) + |shots[j]|] == shots[j]
  {
    var joined := Join(Gap, shots);
    var r := FullPrompt(system, shots, brief);
    var head := system + Gap;
    assert r == head + joined + (Gap + brief);
    PartInJoin(Gap, shots, j);
    var q := JoinOffset(Gap, shots, j);
    assert r[|head| + q..|head| + q + |shots[j]|] == joined[q..q + |shots[j]|];
  }

  /** A full prompt starts with the instruction and a blank line, ends with a blank line and
      the brief, and holds each worked example at its offset, one blank line after the one
      before it. */
  lemma FullPromptLayout(system: string, shots: seq<string>, brief: string)
    ensures StartsWith(FullPrompt(system, shots, brief), system + Gap)
    ensures EndsWith(FullPrompt(system, shots, brief), Gap + brief)
    ensures forall j | 0 <= j < |shots| ::
              ShotOffset(system, shots, j) + |shots[j]| <= |FullPrompt(system, shots, brief)| &&
              FullPrompt(system, shots, brief)[ShotOffset(system, shots, j)..ShotOffset(system, shots, j) + |shots[j]|] == shots[j]
    ensures forall j | 0 <= j < |shots| - 1 ::
              ShotOffset(system, shots, j + 1) == ShotOffset(system, shots, j) + |shots[j]| + |Gap|
  {
    var r := FullPrompt(system, shots, brief);
    assert r == (system + Gap) + Join(Gap, shots) + (Gap + brief);
    forall j | 0 <= j < |shots|
      ensures ShotOffset(system, shots, j) + |shots[j]| <= |r| &&
              r[ShotOffset(system, shots, j)..ShotOffset(system, shots, j) + |shots[j]|] == shots[j]
    {
      ShotInFullPrompt(system, shots, brief, j);
    }
    forall j | 0 <= j < |shots| - 1
      ensures ShotOffset(system, shots, j + 1) == ShotOffset(system, shots, j) + |shots[j]| + |Gap|
    {
      JoinOffsetNext(Gap, shots, j);
    }
  }

  /** A full prompt with four worked examples, written out: the instruction, each example and
      the brief, one blank line apart. */
  lemma FullPromptOfFour(system: string, shots: seq<string>, brief: string)
    requires |shots| == 4
    ensures FullPrompt(system, shots, brief) ==
            system + Gap + shots[0] + Gap + shots[1] + Gap + shots[2] + Gap + shots[3] + Gap + brief
  {
    var rest := shots[1..];
    assert rest[0] == shots[1] && rest[1..][0] == shots[2] && rest[1..][1..] == [shots[3]];
    assert Join(Gap, rest[1..]) == shots[2] + Gap + shots[3];
    assert Join(Gap, shots) == shots[0] + Gap + (shots[1] + Gap + (shots[2] + Gap + shots[3]));
  }

  /** The full prompt for two worked examples, written out: the instruction, a blank line,
      the first brief formatted, its plan, the second brief formatted, its plan, a blank line
      and the new brief formatted, each part one blank line after the one before it. */
  lemma FullPromptOfShots(system: string, brief1: Brief, plan1: string, brief2: Brief, plan2: string, b: Brief)
    ensures FullPrompt(system, ShotTexts(Shots(brief1, plan1, brief2, plan2)), FormatUserBrief(b)) ==
            system + Gap + FormatUserBrief(brief1) + Gap + plan1 + Gap +
            FormatUserBrief(brief2) + Gap + plan2 + Gap + FormatUserBrief(b)
  {
    FullPromptOfFour(system, ShotTexts(Shots(brief1, plan1, brief2, plan2)), FormatUserBrief(b));
  }

  /** The prompt sent for brief `b`: the instruction, a blank line, the Picnic brief, its plan,
      the Pool Party brief, its plan, a blank line and then `b` formatted, each part one blank
      line after the one before it. */
  lemma BuildFullPromptLayout(b: Brief)
    ensures BuildFullPrompt(b) ==
            SystemPrompt() + Gap + FormatUserBrief(PicnicBrief) + Gap + PromptProse.PicnicPlan() + Gap +
            FormatUserBrief(PoolPartyBrief) + Gap + PromptProse.PoolPartyPlan() + Gap + FormatUserBrief(b)
  {
    FullPromptOfShots(SystemPrompt(), PicnicBrief, PromptProse.PicnicPlan(), PoolPartyBrief, PromptProse.PoolPartyPlan(), b);
  }

  // ---------------------------------------------------------------------------------------
  // The model's reply

  /** What a `generate_content` call gives back: it raises an exception with a message, or it
      returns candidates, each a list of text parts. */
  datatype Reply = Raised(detail: string) | Returned(candidates: seq<seq<string>>)

  /** The text a handler produces, or `Fault` when reading the reply raises and the run ends. */
  datatype Outcome = Produced(text: string) | Fault

  const FailurePrefix := "API request failed: "
  const NoResponse := "No response from model. Please try again."

  /** `generate_event_plan` given the reply to its request: the exception text, the fallback
      sentence when there is no candidate, otherwise the first part of the first candidate. */
  function GenerateEventPlan(reply: Reply): (o: Outcome)
    ensures o.Fault? <==> reply.Returned? && reply.candidates != [] && reply.candidates[0] == []
  {
    match reply
    case Raised(detail) => Produced(FailurePrefix + detail)
    case Returned(candidates) =>
      if candidates == [] then Produced(NoResponse)
      else if candidates[0] == [] then Fault
      else Produced(candidates[0][0])
  }

  /** `"Error" not in text`: the test a result passes before it becomes the plan. */
  predicate Stores(text: string) {
    !Contains(text, "Error")
  }

  /** A prefix none of whose characters starts `t` cannot hold the start of an occurrence. */
  lemma {:induction false} ContainsAfterPrefix(p: string, d: string, t: string)
    requires t != [] && forall k | 0 <= k < |p| :: p[k] != t[0]
    ensures Contains(p + d, t) <==> Contains(d, t)
    decreases |p|
  {
    if p != [] {
      assert (p + d)[0] == p[0];
      assert (p + d)[1..] == p[1..] + d;
      ContainsAfterPrefix(p[1..], d, t);
    } else {
      assert p + d == d;
    }
  }

  /** `t` occurs in `x + t + y`. */
  lemma {:induction false} ContainsInfix(x: string, t: string, y: string)
    ensures Contains(x + t + y, t)
    decreases |x|
  {
    if x == [] {
      assert (x + t + y)[..|t|] == t;
    } else {
      assert (x + t + y)[1..] == x[1..] + t + y;
      ContainsInfix(x[1..], t, y);
    }
  }

  /** The gate decides on the reply as follows: a failed request is stored as the plan unless
      its message says `Error`, because the failure text itself never does; the no-response
      sentence is always stored; a model text is stored unless it says `Error`. */
  lemma StoredIff(reply: Reply)
    requires GenerateEventPlan(reply).Produced?
    ensures Stores(GenerateEventPlan(reply).text) <==>
            match reply
            case Raised(detail) => !Contains(detail, "Error")
            case Returned(candidates) => candidates == [] || !Contains(candidates[0][0], "Error")
  {
    match reply
    case Raised(detail) =>
      ContainsAfterPrefix(FailurePrefix, detail, "Error");
    case Returned(candidates) =>
      if candidates == [] {
        ContainsAfterPrefix(NoResponse, "", "Error");
        assert NoResponse + "" == NoResponse;
      }
  }

  /** Any text that mentions `Error` is shown as an error and never stored. */
  lemma MentionOfErrorNotStored(x: string, y: string)
    ensures !Stores(x + "Error" + y)
  {
    ContainsInfix(x, "Error", y);
  }

  // ---------------------------------------------------------------------------------------
  // Refinements

  /** The three refinement buttons. */
  datatype Refinement = Cheaper | ToChecklist | KidFriendly

  const CheaperRequest := "\n\nRefine this plan to reduce total cost by ~20% without lowering quality."
  const KidFriendlyRequest := "\n\nAdapt this plan to be family- and kid-friendly, including safe activities and menu changes."

  /** The lines of the checklist request. */
  const ChecklistRequestLines: seq<string> := [
    "Convert this event plan into a clear, organized checklist.",
    "Include categories like:",
    "- Pre-event planning tasks (with recommended timelines)",
    "- Booking and logistics tasks",
    "- Food and drinks prep/shopping list",
    "- Setup and decoration tasks",
    "- Activities checklist",
    "- Post-event cleanup/reminder list",
    "",
    "Make sure the checklist is easy to follow and sequential.",
    "Return only a numbered list of tasks."]

  /** The checklist request: three newlines, then the request lines, each ended by a newline. */
  function ChecklistRequest(): string {
    "\n\n\n" + Terminated(ChecklistRequestLines)
  }

  /** The request appended to the plan for each refinement. */
  function RefineSuffix(k: Refinement): string {
    match k
    case Cheaper => CheaperRequest
    case KidFriendly => KidFriendlyRequest
    case ToChecklist => ChecklistRequest()
  }

  /** The prompt of a refinement: the stored plan, then the request. */
  function RefinePrompt(plan: string, k: Refinement): string {
    plan + RefineSuffix(k)
  }

  /** The plan a refinement prompt was made from. */
  function PlanOf(prompt: string, k: Refinement): string
    requires EndsWith(prompt, RefineSuffix(k))
  {
    prompt[..|prompt| - |RefineSuffix(k)|]
  }

  /** A refinement prompt ends with the request of its button, and the plan can be read back
      from it: different plans give different prompts. */
  lemma RefinePromptRoundTrip(plan: string, k: Refinement)
    ensures StartsWith(RefinePrompt(plan, k), plan)
    ensures EndsWith(RefinePrompt(plan, k), RefineSuffix(k))
    ensures PlanOf(RefinePrompt(plan, k), k) == plan
  {
    var r := RefinePrompt(plan, k);
    assert r[..|plan|] == plan;
    assert r[|r| - |RefineSuffix(k)|..] == RefineSuffix(k);
  }

  /** A refinement reads `candidates[0].content.parts[0].text` with nothing around it, so a
      failed request or a reply without candidates or parts ends the run. */
  function RefinedText(reply: Reply): (o: Outcome)
    ensures o.Produced? <==> reply.Returned? && reply.candidates != [] && reply.candidates[0] != []
  {
    match reply
    case Raised(_) => Fault
    case Returned(candidates) =>
      if candidates != [] && candidates[0] != [] then Produced(candidates[0][0]) else Fault
  }

  /** A refinement reads a reply as the first generation does, except that it has no fallback:
      where the generation shows the failure text or the no-response sentence, the refinement
      fails. */
  lemma RefinementHasNoFallback(reply: Reply)
    ensures RefinedText(reply) == GenerateEventPlan(reply) <==> reply.Returned? && reply.candidates != []
    ensures RefinedText(reply) != GenerateEventPlan(reply) ==> RefinedText(reply).Fault? && GenerateEventPlan(reply).Produced?
  { }
}
