/** The healthcare assistant's system prompt, with the conversation context appended when
    there is one. */
module Prompts {
  import opened PyValues
  import opened PyText

  /** `HEALTHCARE_ASSISTANT_PROMPT`. */
  const HealthcareAssistantPrompt: string :=
    "\nYou are a healthcare assistant. Based on the user's question:\n"
    + "- If the question is about specific patient data, diseases, doctor, hospital, insurance provider, room or treatments, use the 'rag_tool'.\n"
    + "- If the question is general or no specific data is needed, use the 'llm_tool'.\n"

  /** What the appended f-string puts before the context: a line break and a line of eight spaces. */
  const ContextOpening: string := "\n        \n"

  /** What the appended f-string puts after the context. */
  const ContinuityBlock: string :=
    "\n\nWhen responding to the user, reference information from previous parts of the conversation when relevant.\n"
    + "You have a complete memory of the conversation history and should maintain continuity.\n"

  /** Python truthiness of the optional context: `None` and "" are falsy. */
  predicate HasContext(context: Option<string>)
  {
    context.Some? && context.value != ""
  }

  /** `get_healthcare_system_prompt(conversation_context)`. */
  function GetHealthcareSystemPrompt(context: Option<string>): (prompt: string)
    ensures !HasContext(context) ==> prompt == HealthcareAssistantPrompt
    ensures StartsWith(prompt, HealthcareAssistantPrompt)
  {
    if HasContext(context) then
      Appended(HealthcareAssistantPrompt, ContextOpening + context.value + ContinuityBlock)
    else HealthcareAssistantPrompt
  }

  /** `prompt += …`. */
  function Appended(prompt: string, more: string): (r: string)
    ensures StartsWith(r, prompt) && r[|prompt|..] == more
  {
    prompt + more
  }

  /** Where the context starts in a prompt that carries one. */
  function ContextStart(): nat
  {
    |HealthcareAssistantPrompt| + |ContextOpening|
  }

  /** With a context, the prompt is the base prompt, the opening, the context verbatim and
      the continuity instructions, in that order; the context can be read back from it. */
  lemma ContextInPrompt(context: string)
    requires context != ""
    ensures var prompt := GetHealthcareSystemPrompt(Some(context));
      && |prompt| == ContextStart() + |context| + |ContinuityBlock|
      && prompt[..|HealthcareAssistantPrompt|] == HealthcareAssistantPrompt
      && prompt[|HealthcareAssistantPrompt|..ContextStart()] == ContextOpening
      && prompt[ContextStart()..ContextStart() + |context|] == context
      && prompt[ContextStart() + |context|..] == ContinuityBlock
  {
    Layout(HealthcareAssistantPrompt, ContextOpening, context, ContinuityBlock);
  }

  /** The four pieces of `p + (a + b + c)`. */
  lemma Layout(p: string, a: string, b: string, c: string)
    ensures var s := Appended(p, a + b + c);
      && |s| == |p| + |a| + |b| + |c|
      && s[..|p|] == p
      && s[|p|..|p| + |a|] == a
      && s[|p| + |a|..|p| + |a| + |b|] == b
      && s[|p| + |a| + |b|..] == c
  {
    var s := Appended(p, a + b + c);
    assert s == p + a + b + c;
  }

  /** Two different contexts give two different prompts. */
  lemma ContextDetermined(c1: string, c2: string)
    requires c1 != "" && c2 != ""
    requires GetHealthcareSystemPrompt(Some(c1)) == GetHealthcareSystemPrompt(Some(c2))
    ensures c1 == c2
  {
    ContextInPrompt(c1);
    ContextInPrompt(c2);
  }
}
