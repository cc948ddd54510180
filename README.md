# AI Event Planner — a Dafny model

The AI Event Planner is a small Streamlit page. A user fills in an event brief: event type,
guest count, budget, theme, duration and special considerations. The page sends the brief,
a fixed system instruction and two worked examples to a Gemini model. It keeps the reply as
the plan. Three buttons then ask the model to make the plan cheaper, make it kid-friendly,
or turn it into a checklist. The checklist reply is parsed into tasks, shown as checkboxes,
and summarised by a progress count.

This project models the two core files:

- `prompts.py`: the system instruction, the worked examples and the brief formatter.
- `app.py`: the API key check, the form validation, the prompt assembly, the reading of the
  model's reply, the `Error` gate in front of the stored plan, the refinement requests, the
  checklist parser and the progress count.

Modules:

- `Text` (`text.dfy`) — the Python string operations the code uses: `strip` with and without
  a character argument (`str.isspace` whitespace), `startswith`, `in`, `split("\n")`,
  `sep.join`, and `str` of an integer.
- `PromptProse` (`prose.dfy`) — the fixed prose of `prompts.py`: the two example plans (line
  by line), the introduction, the section hints and the constraint lines.
- `Prompts` (`prompts.dfy`) — `format_user_brief`, `build_few_shot_examples`,
  `build_system_prompt`.
- `Planner` (`planner.dfy`) — the pure rules of `app.py`.
- `Checklist` (`checklist.dfy`) — the checklist comprehension and the completed count.
- `Sessions` (`session.dfy`) — `st.session_state` as a class `Session`, with one method per
  user action.

The model client is not modelled. Each action that calls it takes the model's answer as a
parameter, a `Reply`: either the exception the call raised or the list of candidates,
each a list of text parts. The environment is a parameter of `ApiKey`.

Where the intended behaviour of the page and its code disagree, the model follows the code:

- A refinement never changes the stored plan. "Make It Cheaper" and "Make Kid-Friendly" only
  display their result.
- A failed first generation produces `API request failed: …`. That text holds no `Error`, so
  the gate stores it as the plan unless the exception message itself says `Error`.

## Model

| member | source | states |
|---|---|---|
| Prompts.BriefLines | ai-event-planner/prompts.py:133-141 | the brief's lines are the heading, the six labelled fields in fixed order (value or empty when the key is missing) and a blank line |
| Prompts.FormatUserBrief | ai-event-planner/prompts.py:133-143 | the formatted brief starts with the `# New Event Brief` line and ends with the closing request |
| Prompts.BriefLinesInOrder | ai-event-planner/prompts.py:133-143 | when no value holds a newline, splitting the formatted brief on newlines gives back exactly the heading, the six labelled fields in order and the blank line, followed by the split of the closing request |
| Prompts.MissingFieldRendersEmpty | ai-event-planner/prompts.py:136-141 | a key missing from the brief is no error: its line is the bare label |
| Prompts.BudgetFollowsDollarSign | ai-event-planner/prompts.py:138 | the budget value stands right after `Budget: $` on the fourth line and ends that line |
| Prompts.Shots | ai-event-planner/prompts.py:19-131 | the worked examples are four turns, user/model/user/model, holding the first brief formatted, its plan, the second brief formatted and its plan |
| Prompts.SectionLineInInstruction | ai-event-planner/prompts.py:4-17 | each section line stands whole in the instruction, between two newlines, at its offset |
| Prompts.InstructionListsSectionsInOrder | ai-event-planner/prompts.py:4-17 | every instruction of this layout lists its six sections as whole lines at strictly increasing offsets, each line starting with its number and title |
| Prompts.SystemPromptListsSectionsInOrder | ai-event-planner/prompts.py:3-17 | the system prompt lists its six sections numbered 1) to 6), whole lines in the required order, from Event Details to Backup options |
| Planner.ApiKeyMissingIff | ai-event-planner/app.py:18-22 | the app stops for want of a key exactly when the variable is unset or holds only whitespace |
| Planner.BriefOf | ai-event-planner/app.py:77-84 | the brief holds exactly the six keys, each with its value |
| Planner.BriefOfTruthyIff | ai-event-planner/app.py:86 | `all(brief.values())` holds exactly when each of the six values is truthy |
| Planner.FormBriefTruthyIff | ai-event-planner/app.py:77-88 | the form's brief passes exactly when no stripped text is empty and neither number is zero |
| Planner.FormAcceptedIff | ai-event-planner/app.py:77-88 | a form is accepted exactly when each text has a non-whitespace character and guest count and budget are non-zero; a budget of 0, which the input allows, is refused |
| Planner.FloatBudgetLine | ai-event-planner/app.py:80 | a budget stored by `float(budget)` is written into the brief as its digits and `.0`, after `Budget: $`, ending the line |
| Planner.ShotTexts | ai-event-planner/app.py:56 | one text per worked-example turn, in turn order: briefs and plans alike |
| Planner.ShotInFullPrompt | ai-event-planner/app.py:52-57 | worked example `j` stands whole in the full prompt at its offset |
| Planner.FullPromptLayout | ai-event-planner/app.py:52-57 | the full prompt starts with the instruction and a blank line, ends with a blank line and the brief, and holds every worked example in order, each one blank line after the previous |
| Planner.FullPromptOfShots | ai-event-planner/app.py:52-57 | with two worked examples, the full prompt is the instruction, the first brief formatted, its plan, the second brief formatted, its plan and the new brief formatted, one blank line apart |
| Planner.BuildFullPromptLayout | ai-event-planner/app.py:52-57 | the prompt sent for a brief is the system instruction, the Picnic brief formatted, the Picnic plan, the Pool Party brief formatted, the Pool Party plan and the brief formatted, one blank line apart |
| Planner.GenerateEventPlan | ai-event-planner/app.py:62-71 | generation fails only when the first candidate has no part; otherwise it yields the failure text, the no-response sentence or the first part |
| Planner.ContainsAfterPrefix | ai-event-planner/app.py:94 | a prefix without the first letter of `Error` does not change whether the text contains `Error` |
| Planner.ContainsInfix | ai-event-planner/app.py:94 | `Error` is found wherever it occurs in a text |
| Planner.StoredIff | ai-event-planner/app.py:62-98 | a failed request is stored unless its message says `Error`; the no-response sentence is always stored; a model text is stored unless it says `Error` |
| Planner.MentionOfErrorNotStored | ai-event-planner/app.py:94-97 | any text mentioning `Error` is shown as an error and never stored, even a genuine plan |
| Planner.RefinePromptRoundTrip | ai-event-planner/app.py:110-148 | a refinement prompt starts with the stored plan, ends with its button's request, and the plan can be read back from it, so different plans give different prompts |
| Planner.RefinedText | ai-event-planner/app.py:110-148 | a refinement yields text exactly when the call returns a candidate with a part; otherwise the run ends |
| Planner.RefinementHasNoFallback | ai-event-planner/app.py:62-113 | a refinement reads a reply as the first generation does when there are candidates, and fails where the generation would show the failure text or the no-response sentence |
| Checklist.CleanLine | ai-event-planner/app.py:137 | an item is no longer than its line and neither starts nor ends with whitespace |
| Checklist.ExtractItems | ai-event-planner/app.py:136-139 | no more items than lines |
| Checklist.ParseChecklist | ai-event-planner/app.py:136-139 | no more items than the reply has lines |
| Checklist.ItemsComeFromKeptLines | ai-event-planner/app.py:136-139 | for any filter and cleaning, the comprehension gives as many elements as kept lines, element `j` being the cleaned `j`-th kept line, which passes the filter |
| Checklist.KeptPositionsIncrease | ai-event-planner/app.py:136-139 | the kept lines lie within the lines in strictly increasing order, so the elements keep the lines' order |
| Checklist.KeptLinesAllListed | ai-event-planner/app.py:136-139 | every line the filter keeps is among the kept lines, so none is lost |
| Checklist.ItemsOfReply | ai-event-planner/app.py:132-139 | the checklist of a reply is exactly its kept lines, cleaned, in the reply's order: item `j` comes from the `j`-th kept line and every kept line gives an item |
| Checklist.KeepLineIff | ai-event-planner/app.py:138 | a line is kept exactly when it has a non-whitespace character and does not start with `###` |
| Checklist.DashAndSpaceRunsRemoved | ai-event-planner/app.py:137 | when a line's only whitespace is the space, cleaning removes exactly the leading and trailing runs of `-` and space |
| Checklist.ItemsAreTrimmed | ai-event-planner/app.py:136-139 | no item starts or ends with whitespace |
| Checklist.SingleLineReply | ai-event-planner/app.py:136-139 | a one-line reply gives its cleaned line if kept, and nothing otherwise |
| Checklist.HeadingDropped | ai-event-planner/app.py:138 | a `###` heading line gives no item |
| Checklist.SubheadingKept | ai-event-planner/app.py:138 | a `##` heading line is kept as an item, `##` included |
| Checklist.IndentedHeadingKept | ai-event-planner/app.py:137-138 | a `###` heading indented by spaces is kept, because the test looks at the unstripped line |
| Checklist.DashRuleYieldsEmptyItem | ai-event-planner/app.py:137-138 | a line of dashes passes the filter and gives an empty item |
| Checklist.TabIndentedBulletKeepsDash | ai-event-planner/app.py:137 | a tab-indented bullet keeps its dash, since `strip("- ")` stops at the tab |
| Checklist.PlainTaskKept | ai-event-planner/app.py:137-138 | a trimmed task line without bullet is kept unchanged |
| Checklist.BulletedTaskKept | ai-event-planner/app.py:137-138 | a `- ` bullet loses its bullet and keeps its text |
| Checklist.HeadingAndBlankLinesDropped | ai-event-planner/app.py:136-139 | a reply of a heading, a task, a blank line and a bullet gives exactly the two tasks |
| Checklist.CountCompleted | ai-event-planner/app.py:160 | the completed count never exceeds the number of tasks |
| Checklist.AllCompletedIff | ai-event-planner/app.py:159-162 | every task is done exactly when every box is ticked |
| Checklist.NoneCompletedIff | ai-event-planner/app.py:159-162 | no task is done exactly when no box is ticked |
| Checklist.SetFlagCount | ai-event-planner/app.py:155-160 | ticking an unticked box of a shown task raises the count by one, unticking lowers it by one, anything else leaves it |
| Sessions.Session.constructor | ai-event-planner/app.py:30-31 | a new session has no plan, no checklist and no ticked box |
| Sessions.Session.Submit | ai-event-planner/app.py:76-98 | a refused form changes nothing; a reply that cannot be read ends the run; a result mentioning `Error` is shown as an error; anything else becomes the plan |
| Sessions.Session.Refine | ai-event-planner/app.py:103-148 | offered only with a plan; sends the plan and the button's request; shows the first part or fails; the checklist button, on a reply, saves the parsed tasks in place of the old checklist; the plan and every other state stay unchanged |
| Sessions.Session.SetFlag | ai-event-planner/app.py:155-156 | ticking or unticking one shown box changes that box only |
| Sessions.Session.Rows | ai-event-planner/app.py:151-156 | one checkbox per task, in checklist order, each showing whether it is ticked; none without a checklist |
| Sessions.Session.Progress | ai-event-planner/app.py:151-162 | progress is shown only for a non-empty checklist; the completed count is the number of ticked tasks, never above the total, equal to it exactly when all are ticked |

## Left out

- The Streamlit page itself: layout, titles, spinners, `st.error`/`st.success` messages and
  `st.markdown`. Outcomes name what is shown instead.
- The Gemini client, the model name and the network call. Every reply is a parameter. The
  model's answer to a prompt is not a function of that prompt here.
- `load_dotenv` and reading `.env`: the environment is a parameter of `Planner.ApiKey`.
- `st.stop()` for a missing key is stated as `Planner.ApiKeyMissingIff`. The session does not
  track that the page stopped.
- Sessions.Session.Submit: takes the reply to `BuildFullPrompt(FormBrief(f))` as given and does not build that prompt itself.
- A worked-example turn holds its one text part rather than a list of parts, because every
  turn in `prompts.py` has exactly one.
- Planner.FloatBudgetLine: covers whole-number budgets only. The budget field is a
  `number_input` whose minimum, step and default are all integers, so it returns an `int`
  and `float(budget)` is always whole. A fractional budget and Python's exponent form for very large floats are
  not modelled.
- Prompts.SystemPromptListsSectionsInOrder: the exact wording of the section hints,
  constraints and example plans is kept as constants but is not reasoned about character by
  character.
- `item.lower()` before the `###` test is left out, because no character
  lower-cases to `#` and the test only looks for `#`.
- Planner.RefinedText: a part whose text is `None` is not modelled.
- Planner.GenerateEventPlan: a first part whose text is `None` is not modelled. In the code
  that value is returned, and then the `"Error" in plan_text` test raises, so the run ends;
  `Sessions.Session.Submit` therefore does not cover that case either.
- The widget lifecycle of Streamlit is not modelled. The model assumes that a checkbox's
  state is kept under its key `task_i` alone, so the states persist as a map keyed by task
  index and a new checklist does not reset them. Streamlit may instead give a box whose
  label changed a fresh, unticked state.
- Concurrency between sessions: each `Session` object is one user's state.
