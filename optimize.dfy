/** The computation behind the "optimize" button of index.tsx
    (`optimizePrompt`): the blank-prompt guard, the system instruction built
    from the chosen strategy and the negative prompt, the thinking budget,
    and the text shown in the output box once the request ends. The request
    itself is sent by the client library; its outcome is an input here. */
module Optimize {
  import opened Wrappers
  import opened Text
  import History

  /** The strategy cards of the page. */
  datatype Strategy = Reasoning | Coding | Writing | Race | Care | Ape | Coast | Rise | Pain | General

  /** The `data-value` a card carries. */
  function Name(st: Strategy): string
  {
    match st
    case Reasoning => "reasoning"
    case Coding => "coding"
    case Writing => "writing"
    case Race => "race"
    case Care => "care"
    case Ape => "ape"
    case Coast => "coast"
    case Rise => "rise"
    case Pain => "pain"
    case General => "general"
  }

  /** The `switch (currentStrategy)`: a name that is no other strategy's
      falls to the general (default) case. */
  function ParseStrategy(name: string): (st: Strategy)
    ensures st != General ==> Name(st) == name
    ensures st == General <==> forall s: Strategy :: s != General ==> Name(s) != name
  {
    if name == "reasoning" then Reasoning
    else if name == "coding" then Coding
    else if name == "writing" then Writing
    else if name == "race" then Race
    else if name == "care" then Care
    else if name == "ape" then Ape
    else if name == "coast" then Coast
    else if name == "rise" then Rise
    else if name == "pain" then Pain
    else General
  }

  /** Each card's name selects that card's strategy. */
  lemma ParseName(st: Strategy)
    ensures ParseStrategy(Name(st)) == st
  {
  }

  const BaseInstruction: string := "You are a world-class prompt engineer. Your goal is to rewrite the user's input into a highly effective, structured, and clear prompt for a Large Language Model. Retain the core intent but maximize clarity and adherence to the chosen structure. Output ONLY the optimized prompt."

  /** The sentence each strategy appends to the base instruction; only the
      writing strategy uses the tone. */
  function Clause(st: Strategy, tone: string): string
  {
    match st
    case Reasoning => " USE THE \"CHAIN OF THOUGHT\" TECHNIQUE. Explicitly ask the model to \"think step-by-step\", break down the problem, and explain its reasoning before giving the final answer."
    case Coding => " OPTIMIZE FOR CODING. The prompt should ask for clean, efficient, modern code, including comments and error handling. Specify the language if implied."
    case Writing => " OPTIMIZE FOR CREATIVE WRITING. Focus on evocative language, sensory details, and narrative flow. Tone: " + tone + "."
    case Race => " USE THE 'RACE' FRAMEWORK: Role (Who is the AI?), Action (What to do?), Context (Background info), Explanation (Why/How?)."
    case Care => " USE THE 'CARE' FRAMEWORK: Context, Action, Result, Example."
    case Ape => " USE THE 'APE' FRAMEWORK: Action, Purpose, Execution."
    case Coast => " USE THE 'COAST' FRAMEWORK: Context, Objective, Actions, Scenario, Task."
    case Rise => " USE THE 'RISE' FRAMEWORK: Role, Input, Steps, Execution."
    case Pain => " USE THE 'PAIN' FRAMEWORK: Problem, Action, Information, Next Steps."
    case General => " Make the prompt direct, remove ambiguity, and structure it logically."
  }

  const ConstraintIntro: string := "\n\nCONSTRAINT: The prompt MUST include a negative constraint section forbidding: \""
  const ConstraintEnd: string := "\"."

  /** The negative prompt that is taken into account: the trimmed text of the
      negative-prompt box, and nothing while the box is hidden. */
  function NegativeConstraint(visible: bool, text: string): string
  {
    if visible then Trim(text) else ""
  }

  /** The constraint paragraph, present only for a non-empty negative prompt. */
  function ConstraintSuffix(neg: string): string
  {
    if neg == "" then "" else ConstraintIntro + neg + ConstraintEnd
  }

  function SystemInstruction(strategy: string, tone: string, negVisible: bool, negText: string): string
  {
    BaseInstruction + Clause(ParseStrategy(strategy), tone) + ConstraintSuffix(NegativeConstraint(negVisible, negText))
  }

  /** The constraint paragraph is there exactly when the negative-prompt box
      is shown and its text is not blank, and then it quotes the trimmed
      text. */
  lemma ConstraintPresence(negVisible: bool, negText: string)
    ensures ConstraintSuffix(NegativeConstraint(negVisible, negText)) != "" <==> negVisible && !AllWhitespace(negText)
    ensures negVisible && !AllWhitespace(negText) ==>
              ConstraintSuffix(NegativeConstraint(negVisible, negText)) == ConstraintIntro + Trim(negText) + ConstraintEnd
  {
    TrimEmptyIff(negText);
  }

  /** The clause used is the named strategy's, or the general one for a
      name that is no card's. */
  lemma ClauseOfName(strategy: string, tone: string)
    ensures forall st: Strategy :: Name(st) == strategy ==> Clause(ParseStrategy(strategy), tone) == Clause(st, tone)
    ensures (forall st: Strategy :: Name(st) != strategy) ==> Clause(ParseStrategy(strategy), tone) == Clause(General, tone)
  {
    forall st: Strategy | Name(st) == strategy
      ensures ParseStrategy(strategy) == st
    {
      ParseName(st);
    }
  }

  /** The system instruction is the base instruction followed by exactly one
      strategy clause (see `ClauseOfName`) and then the constraint paragraph,
      which is there exactly when the negative-prompt box is shown and its
      text is not blank, and which quotes the trimmed text. */
  lemma InstructionShape(strategy: string, tone: string, negVisible: bool, negText: string)
    ensures SystemInstruction(strategy, tone, negVisible, negText)
         == BaseInstruction + Clause(ParseStrategy(strategy), tone)
            + (if negVisible && !AllWhitespace(negText) then ConstraintIntro + Trim(negText) + ConstraintEnd else "")
  {
    ConstraintPresence(negVisible, negText);
  }

  const ProBudget: nat := 16384
  const FlashBudget: nat := 8192

  /** The thinking budget, set only for the reasoning strategy: the larger
      one when the model name contains "pro". */
  function ThinkingBudget(strategy: string, model: string): (b: Option<nat>)
    ensures b.Some? <==> strategy == Name(Reasoning)
    ensures b.Some? ==> (b.value == ProBudget <==> exists i: nat :: OccursAt(model, "pro", i))
    ensures b.Some? ==> (b.value == FlashBudget <==> !exists i: nat :: OccursAt(model, "pro", i))
  {
    if strategy == "reasoning" then Some(if Contains(model, "pro") then ProBudget else FlashBudget)
    else None
  }

  /** Of the three models the page offers, only the "pro" one gets the
      larger budget. */
  lemma BudgetOfProModel()
    ensures ThinkingBudget("reasoning", "gemini-3-pro-preview") == Some(ProBudget)
  {
    assert OccursAt("gemini-3-pro-preview", "pro", 9);
  }

  lemma BudgetOfFlashModel()
    ensures ThinkingBudget("reasoning", "gemini-2.5-flash") == Some(FlashBudget)
  {
    Absent("gemini-2.5-flash", "pro");
  }

  lemma BudgetOfFlashLiteModel()
    ensures ThinkingBudget("reasoning", "gemini-flash-lite-latest") == Some(FlashBudget)
  {
    Absent("gemini-flash-lite-latest", "pro");
  }

  /** What the user filled in on the page when the button was pressed. */
  datatype Form = Form(input: string, negativeVisible: bool, negativeText: string,
                       strategy: string, tone: string, model: string)

  /** The `generateContent` call that is made. */
  datatype Request = Request(model: string, contents: string, systemInstruction: string,
                             thinkingBudget: Option<nat>)

  /** What pressing the button leads to: nothing without a client, the
      blank-prompt message, or a request. */
  datatype Plan = NoClient | Blank | Send(request: Request)

  function PlanRequest(clientReady: bool, f: Form): (p: Plan)
    ensures p.NoClient? <==> !clientReady
    ensures p.Blank? <==> clientReady && AllWhitespace(f.input)
    ensures p.Send? ==>
      && p.request.contents == Trim(f.input) && p.request.contents != ""
      && p.request.model == f.model
      && p.request.systemInstruction == SystemInstruction(f.strategy, f.tone, f.negativeVisible, f.negativeText)
      && p.request.thinkingBudget == ThinkingBudget(f.strategy, f.model)
  {
    TrimEmptyIff(f.input);
    if !clientReady then NoClient
    else
      var prompt := Trim(f.input);
      if prompt == "" then Blank
      else
        Send(Request(f.model, prompt,
                     SystemInstruction(f.strategy, f.tone, f.negativeVisible, f.negativeText),
                     ThinkingBudget(f.strategy, f.model)))
  }

  /** How the request ended: with a response whose `text` may be missing, or
      with an exception whose `message` may be missing. */
  datatype Response = Generated(text: Option<string>) | Thrown(message: Option<string>)

  const BlankMessage: string := "Please enter a prompt first."
  const NoResponseMessage: string := "No response generated."
  const StoppedMessage: string := "Stopped."
  const DefaultErrorMessage: string := "Error during optimization."
  const NetworkErrorMessage: string := "Network Error: " + "Please check your internet connection or API Key."
  const ErrorPrefix: string := "Error: "

  predicate IsNetworkFailure(message: Option<string>)
  {
    message.Some? && (Contains(message.value, "NetworkError") || Contains(message.value, "fetch"))
  }

  /** The `catch` block's message. */
  function ErrorMessage(message: Option<string>): string
  {
    if IsNetworkFailure(message) then NetworkErrorMessage
    else if message.Some? && message.value != "" then ErrorPrefix + message.value
    else DefaultErrorMessage
  }

  /** The three kinds of error message cannot be confused: the network
      message appears exactly for a message naming a network failure, the
      exception's own message is echoed after "Error: " exactly when it is
      non-empty and not a network failure, and the generic message appears
      in the remaining cases. */
  lemma ErrorMessageKinds(message: Option<string>)
    ensures ErrorMessage(message) == NetworkErrorMessage <==> IsNetworkFailure(message)
    ensures ErrorMessage(message) == DefaultErrorMessage <==>
              !IsNetworkFailure(message) && (message.None? || message.value == "")
    ensures (|ErrorMessage(message)| >= |ErrorPrefix| && ErrorMessage(message)[..|ErrorPrefix|] == ErrorPrefix)
              <==> !IsNetworkFailure(message) && message.Some? && message.value != ""
    ensures !IsNetworkFailure(message) && message.Some? && message.value != "" ==>
              ErrorMessage(message)[|ErrorPrefix|..] == message.value
  {
    var e := ErrorMessage(message);
    assert NetworkErrorMessage[0] == 'N' && ErrorPrefix[0] == 'E' && DefaultErrorMessage[0] == 'E';
    assert DefaultErrorMessage[5] == ' ' && ErrorPrefix[5] == ':';
    if !IsNetworkFailure(message) && message.Some? && message.value != "" {
      assert e[0] == 'E' && e[5] == ':';
      assert e[..|ErrorPrefix|] == ErrorPrefix;
    }
  }

  /** The text put in the output box when the request ends. */
  function OutputText(r: Response, cancelled: bool): string
  {
    match r
    case Generated(text) =>
      if cancelled then StoppedMessage
      else if text.Some? && text.value != "" then text.value
      else NoResponseMessage
    case Thrown(message) => ErrorMessage(message)
  }

  /** The output box is never left empty; a response's text is shown as it
      came unless the user pressed stop; an exception is reported even when
      the user pressed stop. */
  lemma OutputCases(r: Response, cancelled: bool)
    ensures OutputText(r, cancelled) != ""
    ensures r.Generated? && !cancelled && r.text.Some? && r.text.value != "" ==> OutputText(r, cancelled) == r.text.value
    ensures r.Generated? && cancelled ==> OutputText(r, cancelled) == StoppedMessage
    ensures r.Thrown? ==> OutputText(r, cancelled) == OutputText(r, !cancelled)
  {
  }

  /** One press of the optimize button. `response` is the outcome of the
      request, used only when one is sent; `cancelled` is whether stop was
      pressed before it came back. The output box is left alone (`None`)
      when there is no client. The prompt is saved in the history exactly
      when a request is sent. */
  method OptimizePrompt(history: History.PromptHistory, clientReady: bool, f: Form,
                        response: Response, cancelled: bool)
    returns (output: Option<string>, sent: Option<Request>)
    modifies history
    ensures sent.Some? <==> clientReady && !AllWhitespace(f.input)
    ensures sent.Some? ==> PlanRequest(clientReady, f) == Send(sent.value)
    ensures history.entries == if sent.Some? then History.Saved(old(history.entries), Trim(f.input))
                               else old(history.entries)
    ensures output == if !clientReady then None
                      else if sent.None? then Some(BlankMessage)
                      else Some(OutputText(response, cancelled))
  {
    var plan := PlanRequest(clientReady, f);
    match plan
    case NoClient =>
      output, sent := None, None;
    case Blank =>
      output, sent := Some(BlankMessage), None;
    case Send(request) =>
      history.Save(request.contents);
      sent := Some(request);
      output := Some(OutputText(response, cancelled));
  }
}
