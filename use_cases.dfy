/**
 * The use case generation agent: builds the prompt for the hosted text
 * generation model and splits the text it answers with into use cases. The
 * model call itself is outside the model; its answer is an input.
 */
module UseCases {
  import opened Text

  const PromptHead := "Based on the following industry insights: "
  const PromptTail := ", generate a list of relevant AI use cases for this industry. Focus on operational efficiency and innovation."
  const GenerationModel := "command-xlarge"
  const MaxTokens: nat := 300

  /** The arguments of the `co.generate` call. */
  datatype GenerationRequest = GenerationRequest(model: string, prompt: string, maxTokens: nat)

  /** The prompt: the snippets joined with single spaces, inside a fixed sentence. */
  function Prompt(analysis: seq<string>): (prompt: string)
    ensures |prompt| == |PromptHead| + |Join(analysis, " ")| + |PromptTail|
    ensures prompt[..|PromptHead|] == PromptHead
    ensures prompt[|prompt| - |PromptTail|..] == PromptTail
  {
    PromptHead + Join(analysis, " ") + PromptTail
  }

  /** The text between the fixed head and tail of a prompt. */
  function PromptInsights(prompt: string): string {
    if |prompt| < |PromptHead| + |PromptTail| then []
    else prompt[|PromptHead|..|prompt| - |PromptTail|]
  }

  /** The joined snippets can be read back out of the prompt. */
  lemma PromptCarriesInsights(analysis: seq<string>)
    ensures PromptInsights(Prompt(analysis)) == Join(analysis, " ")
  {
    var insights := Join(analysis, " ");
    var prompt := Prompt(analysis);
    assert prompt[|PromptHead|..|prompt| - |PromptTail|] == insights;
  }

  function Request(analysis: seq<string>): (req: GenerationRequest)
    ensures req.model == GenerationModel && req.maxTokens == MaxTokens
    ensures req.prompt == Prompt(analysis)
    ensures PromptInsights(req.prompt) == Join(analysis, " ")
  {
    PromptCarriesInsights(analysis);
    GenerationRequest(GenerationModel, Prompt(analysis), MaxTokens)
  }

  /** `text.strip().split('\n')`: the lines of the stripped answer, none lost, none merged. */
  function SplitUseCases(generated: string): (useCases: seq<string>)
    ensures |useCases| >= 1
    ensures forall u :: u in useCases ==> '\n' !in u
    ensures Join(useCases, "\n") == Strip(generated)
  {
    JoinSplit(Strip(generated), '\n');
    Split(Strip(generated), '\n')
  }

  /** The first use case is blank only when the whole answer is. */
  lemma FirstUseCaseNonBlank(generated: string)
    requires !IsBlank(generated)
    ensures !IsBlank(SplitUseCases(generated)[0])
  {
    var text := Strip(generated);
    var first := Split(text, '\n')[0];
    assert text[0] != '\n';
    assert |first| > 0;
    assert first[0] == text[0];
    NotBlankIfFirstNotSpace(first);
  }
}
