/** The planner page as a session (ai-event-planner/app.py): the state kept across reruns of
    the page and one method per thing a user can do with it. */
module Sessions {
  import opened Prompts
  import opened Checklist
  import opened Planner

  datatype Option<T> = None | Some(value: T)

  /** What submitting the form leads to: the form is refused, reading the reply fails and the
      run ends, the result is shown as an error, or the result is shown and kept as the plan. */
  datatype SubmitOutcome = Rejected | Crashed | ShownError(message: string) | Stored(plan: string)

  /** What a refinement button leads to: no button while there is no plan, the run ends after
      the request, or the refined text (or checklist) comes back. */
  datatype RefineOutcome =
    | NotOffered
    | Failed(prompt: string)
    | Shown(prompt: string, text: string)

  /** `st.session_state` of one user: the stored plan, the saved checklist (absent until the
      first one is made) and the state of the checkboxes, keyed by task index. */
  class Session {
    var planText: string
    var checklist: Option<seq<string>>
    var flags: map<nat, bool>

    /** A new session: no plan, no checklist, no box ticked. */
    constructor ()
      ensures planText == "" && checklist == None && flags == map[]
    {
      planText := "";
      checklist := None;
      flags := map[];
    }

    /** "Generate Event Plan" with form `f`. `reply` is what the model gives back for the
        prompt `BuildFullPrompt(FormBrief(f))`; it is not asked when the form is refused.
        Only a result that passes the `Error` gate replaces the plan. */
    method Submit(f: Form, reply: Reply) returns (o: SubmitOutcome)
      modifies this`planText
      ensures o.Rejected? <==> !AllTruthy(FormBrief(f))
      ensures o.Crashed? <==> AllTruthy(FormBrief(f)) && GenerateEventPlan(reply).Fault?
      ensures o.ShownError? ==> o.message == GenerateEventPlan(reply).text && !Stores(o.message)
      ensures o.Stored? <==>
              AllTruthy(FormBrief(f)) && GenerateEventPlan(reply).Produced? && Stores(GenerateEventPlan(reply).text)
      ensures o.Stored? ==> o.plan == GenerateEventPlan(reply).text && planText == o.plan
      ensures !o.Stored? ==> planText == old(planText)
    {
      if !AllTruthy(FormBrief(f)) {
        return Rejected;
      }
      var generated := GenerateEventPlan(reply);
      if generated.Fault? {
        return Crashed;
      }
      if !Stores(generated.text) {
        return ShownError(generated.text);
      }
      planText := generated.text;
      return Stored(planText);
    }

    /** A refinement button: offered only while a plan is stored; sends the plan with the
        button's request. `reply` is the model's answer to that prompt. The result of "Make
        It Cheaper" and "Make Kid-Friendly" is shown; the tasks parsed from the result of
        "Generate Event Checklist" replace any earlier checklist. The stored plan and the
        checkbox states stay as they were. */
    method Refine(k: Refinement, reply: Reply) returns (o: RefineOutcome)
      modifies this`checklist
      ensures o.NotOffered? <==> planText == ""
      ensures !o.NotOffered? ==> o.prompt == RefinePrompt(planText, k)
      ensures o.Shown? <==> planText != "" && RefinedText(reply).Produced?
      ensures o.Shown? ==> o.text == RefinedText(reply).text
      ensures checklist == if o.Shown? && k == ToChecklist then Some(ParseChecklist(o.text)) else old(checklist)
    {
      if planText == "" {
        return NotOffered;
      }
      var prompt := RefinePrompt(planText, k);
      var refined := RefinedText(reply);
      if refined.Fault? {
        return Failed(prompt);
      }
      if k == ToChecklist {
        checklist := Some(ParseChecklist(refined.text));
      }
      return Shown(prompt, refined.text);
    }

    /** Ticking (`v`) or unticking the box of task `i`, which is shown only while the
        checklist holds that task. */
    method SetFlag(i: nat, v: bool)
      requires checklist.Some? && i < |checklist.value|
      modifies this`flags
      ensures flags == old(flags)[i := v]
      ensures Ticked(flags, i) == v && forall j | j != i :: Ticked(flags, j) == Ticked(old(flags), j)
    {
      flags := flags[i := v];
    }

    /** The checkboxes shown: each task of the saved checklist with whether its box is ticked,
        in checklist order; nothing when there is no checklist. */
    method Rows() returns (rows: seq<(string, bool)>)
      ensures checklist.None? ==> rows == []
      ensures checklist.Some? ==> |rows| == |checklist.value|
      ensures checklist.Some? ==>
                forall i | 0 <= i < |rows| :: rows[i].0 == checklist.value[i] && rows[i].1 == Ticked(flags, i)
    {
      rows := [];
      if checklist.None? {
        return;
      }
      var tasks := checklist.value;
      var i := 0;
      while i < |tasks|
        invariant 0 <= i <= |tasks| && |rows| == i
        invariant forall j | 0 <= j < i :: rows[j].0 == tasks[j] && rows[j].1 == Ticked(flags, j)
      {
        rows := rows + [(tasks[i], Ticked(flags, i))];
        i := i + 1;
      }
    }

    /** The progress line: completed and total tasks, shown only for a non-empty checklist.
        The completed count is the number of ticked boxes among the tasks, so it never
        exceeds the total and equals it exactly when every box is ticked. */
    method Progress() returns (p: Option<(nat, nat)>)
      ensures p.None? <==> checklist.None? || checklist.value == []
      ensures p.Some? ==> p.value.1 == |checklist.value| > 0 && p.value.0 == CountCompleted(flags, p.value.1)
      ensures p.Some? ==> p.value.0 <= p.value.1
      ensures p.Some? ==> (p.value.0 == p.value.1 <==> forall i | 0 <= i < p.value.1 :: Ticked(flags, i))
    {
      if checklist.None? || checklist.value == [] {
        return None;
      }
      var total := |checklist.value|;
      var completed := 0;
      var i := 0;
      while i < total
        invariant 0 <= i <= total
        invariant completed == CountCompleted(flags, i)
      {
        if Ticked(flags, i) {
          completed := completed + 1;
        }
        i := i + 1;
      }
      AllCompletedIff(flags, total);
      return Some((completed, total));
    }
  }
}
