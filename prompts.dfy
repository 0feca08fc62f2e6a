/**
 * The fixed text around the element listing in the three explanation
 * prompts: `llama_explain` in main.py and `generate_explanation` share one
 * opening paragraph, `build_prompt` in src/action.py has its own; the
 * briefing that follows and the closing line are the same in all three.
 */
module Prompts {

  /** The opening paragraph of main.py and of `generate_explanation`. */
  const Opening: string :=
    "You are a helpful assistant. Your job is to explain the Python code and workflow described below "
    + "in plain, non-technical English to someone without a programming background. Avoid technical jargon. "
    + "Use relatable analogies and simple examples where appropriate.\n\n"

  /** The opening paragraph of `build_prompt`. */
  const ActionOpening: string :=
    "You are a helpful code analysis assistant. Your task is to analyze the provided Python code "
    + "and explain it in clear, non-technical language that would be understandable to someone "
    + "without a programming background. Focus on what the code does and why it's important, "
    + "rather than how it works technically. Use analogies and examples to make complex concepts "
    + "more accessible.\n\n"

  /** The sections from "Task Overview" to "Additional User Requests", each ending in a blank line. */
  const Briefing: string :=
    "\U{1F4CC} Task Overview:\n"
    + "- Break down the Python code into understandable parts.\n"
    + "- Present the explanation in a two-column table:\n"
    + "    1. Section of the prompt\n"
    + "    2. Whether it is dynamic or static\n\n"
    + "\U{1F9E0} User Context:\n"
    + "- The user is building an automated assessment tool using LLMs.\n"
    + "- The tool generates subtopics and test questions from a topic + grade + learning objective.\n"
    + "- They want help modifying Prompt 1 to include a new variable: the learning objective.\n\n"
    + "\U{1F4A1} Input Example:\n"
    + "    topic = 'Ratios and Proportional Relationships'\n"
    + "    student_class = '6th standard'\n"
    + "    learning_objective = 'Understand ratio concepts and use ratio reasoning to solve problems.'\n\n"
    + "\U{1F4DD} Full Prompt 1 (Subtopic Generator):\n"
    + "I want a list of sub-topics for the topic \"{topic}\" which is taught to a \"{student_class}\" student "
    + "with a learning objective \"{learning_objective}\".\n"
    + "First, output the learning objective exactly as given.\n"
    + "Then, output the sub-topics ONLY as a Python list. Do not include any commentary or explanation.\n\n"
    + "\U{1F527} System Context:\n"
    + "We are building an automated assessment web app where questions are usually uploaded manually into a MySQL database. "
    + "This tool uses large language models to generate those questions automatically, saving time and effort.\n\n"
    + "\U{1F4CB} Additional User Requests:\n"
    + "- Modify the original code to include the new learning objective variable.\n"
    + "- Ensure that generate_questions_for_subtopic also uses the learning objective.\n"
    + "- Recreate the dynamic/static breakdown table of Prompt 1 and Prompt 2.\n"
    + "- Show an example of what Prompt 1 and Prompt 2 look like after the code runs.\n"
    + "- Give a step-by-step guide to feeding these prompts into a ChatGPT conversation.\n"
    + "- Convert the instructions into clean documentation.\n"
    + "- Provide a downloadable .docx version of the documentation.\n\n"

  /** The last line, after the listing and a blank line. */
  const Closing: string := "\U{1F9FE} Now, please provide a detailed, beginner-friendly explanation:"

  /** The prompt around a listing: opening, briefing, the listing, a blank line, the closing line. */
  function SystemPrompt(opening: string, combined: string): string
  {
    (opening + Briefing) + combined + ("\n\n" + Closing)
  }

  /** Text between a fixed prefix and a fixed suffix is determined by the whole. */
  lemma Cancel(prefix: string, x: string, y: string, suffix: string)
    requires prefix + x + suffix == prefix + y + suffix
    ensures x == y
  {
    var n := |prefix|;
    assert |x| == |y|;
    assert x == (prefix + x + suffix)[n..n + |x|];
    assert y == (prefix + y + suffix)[n..n + |y|];
  }

  /** Two prompts with the same opening are equal only for the same listing: the listing can be read back. */
  lemma SystemPromptInjective(opening: string, a: string, b: string)
    requires SystemPrompt(opening, a) == SystemPrompt(opening, b)
    ensures a == b
  {
    Cancel(opening + Briefing, a, b, "\n\n" + Closing);
  }
}
