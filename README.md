# AI use case generator: the post-processing, in Dafny

The application takes an industry or company name and runs three agents in sequence.
The research agent keeps the first snippets of a web search.
The use case agent asks a hosted text generation model for AI use cases and splits its answer into lines.
The resource collector formats Hugging Face and Kaggle dataset search results as markdown links.
It saves those links to `<industry>_resources.md` and returns them.
A small web page shows the non-blank use cases and dataset links, and it refuses an empty industry.

Every external call is an input of the model:
- the HTTP status and decoded JSON of the Hugging Face search (`HfResponse`);
- the exit code and stdout of the `kaggle` command, or the text of the exception it raised (`KaggleRun`);
- the status of the web search and the texts of the page's `span` elements (`SearchResponse`);
- the hosted model's answer, as a function from the request to a string (`generate`);
- which file names the operating system refuses to open, with the text of the error it raises (`FileSystem.refused`).

On every path where the external calls return a result the input types can hold, the model computes what `app.py` computes.
When `open()` refuses the resource file, the model returns that error where the Python code raises it, and the page shows it.
Exceptions raised inside the external calls themselves are not modelled (see "Left out").

Modules, one per component of `app.py`:
- `Text` (text.dfy) holds the Python string and list operations the code relies on: `str.strip()`, `str.split(sep)`, `sep.join(...)`, `xs[:n]` and the "keep entries whose strip() is non-empty" filter. Each comes with its characterising lemmas, such as the split/join round trips.
- `Wrappers` (wrappers.dfy) holds the `Option` type.
- `Files` (files.dfy) is the working directory, as a class whose `files` map the methods update. Opening a file with mode "w" truncates it, or raises for a name in `refused`; `write` appends.
- `Resources` (resources.dfy) is `ResourceCollectorAgent`.
- `Research` (research.dfy) is `ResearchAgent`.
- `UseCases` (use_cases.dfy) is `UseCaseGenerationAgent`.
- `Workflow` (workflow.dfy) holds `main_workflow` and the display rules of the web page.

## Model

| member | source | states |
|---|---|---|
| Text.Strip | app.py:71 | `s.strip()` is the infix of `s` that follows the leading whitespace; everything after it is whitespace, and it neither starts nor ends with whitespace |
| Text.TrimEnd | app.py:111 | the trailing-whitespace half of `strip()`: a prefix of the input followed only by whitespace, not ending in whitespace |
| Text.LeadingSpaces | app.py:111 | the leading-whitespace half of `strip()`: the length of the whitespace run that starts the string |
| Text.IsBlank | app.py:71 | `line.strip()` is falsy exactly when the leading whitespace run covers the whole line |
| Text.BlankIffAllSpace | app.py:138 | `use_case.strip()` is falsy exactly when every character is whitespace |
| Text.StripIdempotent | app.py:139 | stripping an already stripped use case changes nothing |
| Text.Split | app.py:68 | `s.split(sep)` always has at least one piece, no piece contains the separator, and the first piece is the text before the first separator |
| Text.Join | app.py:101 | `" ".join(parts)` is empty for no parts, starts with the first part, and puts the separator right after it when there are two or more |
| Text.JoinSplit | app.py:111 | joining the pieces of a split with the separator gives back the text: splitting loses and invents nothing |
| Text.SplitNoSep | app.py:68 | text without the separator splits into itself alone |
| Text.SplitAtFirst | app.py:68 | the first line is split off on its own and the rest of the text splits independently |
| Text.SplitJoin | app.py:68 | splitting lines that were joined with the separator returns exactly those lines |
| Text.Take | app.py:52 | `xs[:5]` is a prefix of `xs` of length min(5, len(xs)) |
| Text.KeepNonBlank | app.py:71 | the filter never returns more entries than it was given |
| Text.KeepNonBlankSound | app.py:143 | every kept entry is a non-blank entry of the input |
| Text.KeepNonBlankAppend | app.py:71 | the filter commutes with concatenation, so kept entries stay in their original order |
| Text.KeepNonBlankComplete | app.py:71 | no non-blank entry is dropped by the filter |
| Text.KeepNonBlankNoBlanks | app.py:143 | a list without blank entries passes the filter unchanged |
| Resources.DatasetId | app.py:54-55 | `dataset.get('id', 'Unknown')` is the id when present; the result is "Unknown" exactly when the id is missing or is itself "Unknown" |
| Resources.SelfLink | app.py:54-55 | a dataset link `[id](base+id)` has length 2·len(id)+len(base)+4, starts with `[`, ends with `)`, carries the id right after `[`, then `](`, then the base URL, then the id again right before `)`: every character is fixed |
| Resources.SelfLinkRoundTrip | app.py:70 | the identifier can be read back from the label and from the end of the URL, so different identifiers give different links |
| Resources.HuggingFaceLinks | app.py:51-59 | on status 200: min(5, n) links, link i built from dataset i's id, with "Unknown" when the id is missing; on any other status: exactly `["Failed to fetch Hugging Face data."]` |
| Resources.HuggingFaceIds | app.py:52-57 | on success each link's label and URL suffix read back as the id of the dataset at the same position of the response, in the order received |
| Resources.HuggingFaceFailureIff | app.py:51-59 | the result is the failure sentinel if and only if the status is not 200 |
| Resources.KaggleRef | app.py:70 | `line.split(',')[0]` is the prefix of the line before its first comma, or the whole line |
| Resources.KaggleRows | app.py:68-71 | at most 5 rows are kept; each is non-blank, holds no newline, and is one of the output's lines after the header |
| Resources.KaggleLinks | app.py:61-76 | at most 5 links; an exception gives exactly `["Error: " + message]`; a non-zero exit gives exactly `["Kaggle API request failed."]`; exit 0 gives one link per kept row, named after the row's first CSV field |
| Resources.KaggleRowsOfLines | app.py:68-71 | for stdout given as lines, the rows are lines 2 to 6 with the blank ones dropped, in order |
| Resources.KaggleHeaderIgnored | app.py:68 | the header line never influences the links |
| Resources.KaggleHeaderOnly | app.py:68 | output with only a header line yields no links |
| Resources.KaggleRefs | app.py:70 | each link's label and URL suffix read back as the first CSV field of its row |
| Resources.KaggleFailureIff | app.py:67-76 | the result is the failure sentinel if and only if the command exited with a non-zero code; an exception or a success never produces it |
| Resources.ResourceLinksNonBlank | app.py:53-76 | no entry from either source is blank |
| Resources.Bullets | app.py:41-42 | the bullets are empty exactly when there are no links; otherwise they start with `- `, end with a newline and take at least three characters per link |
| Resources.MarkdownDocument | app.py:40-42 | the file text starts with the heading line and a blank line, ends with a newline, and is at least three characters per link longer than the heading |
| Resources.BulletsLines | app.py:41-42 | read line by line, the written bullets are one `- link` line per link, in order |
| Resources.MarkdownLines | app.py:38-42 | read line by line, the saved file is the heading `# Resource Links for <industry>`, an empty line, then one `- link` line per link in list order |
| Resources.SaveToMarkdown | app.py:36-44 | the name is `industry + "_resources.md"`; when `open` refuses it, the error comes back and no file changes; otherwise that file's whole content becomes heading plus bullets and no other file changes |
| Resources.CollectAllResources | app.py:78-83 | the links are the Hugging Face links followed by the Kaggle links; when `open` refuses the file the error comes back (the Python call raises) and no file changes; otherwise exactly that list is saved |
| Files.FileSystem.OpenForWrite | app.py:39 | a refused name raises its error and changes no file; any other name is left empty and no other file changes |
| Files.FileSystem.Write | app.py:40 | a write appends its text to the open file only |
| Research.ResearchIndustry | app.py:92-96 | on status 200, a prefix of the span texts of length min(5, n); otherwise exactly `["Failed to fetch data from the web."]` |
| Research.LaterSpansIgnored | app.py:94 | spans after the fifth never reach the snippets |
| UseCases.Prompt | app.py:101-105 | the prompt starts with the fixed head and ends with the fixed tail, and its length leaves room for exactly the snippets joined by single spaces |
| UseCases.PromptCarriesInsights | app.py:101-105 | the joined snippets can be read back out of the prompt |
| UseCases.Request | app.py:102-110 | the generation call uses model `command-xlarge`, 300 tokens, and the prompt is `Prompt(analysis)`, the fixed sentence around the joined snippets, from which the snippets read back |
| UseCases.SplitUseCases | app.py:111 | at least one use case, none containing a newline, and joined with newlines they give exactly the stripped answer |
| UseCases.FirstUseCaseNonBlank | app.py:111 | the first use case is blank only when the whole answer is blank |
| Workflow.ShownUseCases | app.py:137-139 | at most one line per use case, each `- ` followed by text that does not start with whitespace |
| Workflow.ShownDatasets | app.py:142-144 | an entry is shown if and only if it is one of the datasets and it is not blank |
| Workflow.RenderUseCases | app.py:137-139 | the display loop produces exactly the shown-use-case lines |
| Workflow.ShownUseCasesOfKept | app.py:137-139 | the shown lines are the non-blank use cases, in order, each stripped and prefixed with `- ` |
| Workflow.ShownUseCasesWellFormed | app.py:138-139 | every shown line is `- ` followed by a non-empty stripped use case from the list |
| Workflow.NonBlankUseCaseShown | app.py:138-139 | every non-blank use case appears among the shown lines |
| Workflow.AnswerLines | app.py:111 | the answer "A\n\nB\n" splits into "A", "", "B" |
| Workflow.BlankLineFiltered | app.py:138 | filtering the blanks of that answer leaves exactly "A" and "B" |
| Workflow.BlankLineNotShown | app.py:137-139 | that answer is displayed as exactly "- A" and "- B" |
| Workflow.AllResourcesShown | app.py:142-144 | every collected dataset link passes the display filter, so the page shows them all |
| Workflow.MainWorkflow | app.py:114-124 | the use cases come from the answer to a request built from the research snippets; the datasets are the collected links; they are saved, or the error of `open` comes back and no file changes |
| Workflow.Submit | app.py:132-148 | an empty industry is refused with "Please enter a valid industry or company name." and no file is written; when `open` refuses the resource file the page shows "An error occurred: " and the error, and no file changes; otherwise the file is saved and the page shows the non-blank use cases and every dataset link |

## Left out

- HTTP requests to Hugging Face and Google (app.py:47-49, 88-91), including the query strings, headers and bearer token: network I/O. Their status code and decoded body are inputs.
- HTML parsing with `find_all('span')` (app.py:93-94): a foreign library. The span texts are an input sequence.
- The hosted model call (app.py:106-110): a foreign service. It is a function parameter `generate`, and the model only builds its arguments.
- Running the `kaggle` command (app.py:63-66): process invocation. Its exit code, stdout or raised exception text is an input.
- Loading the environment, the missing-key check and writing `~/.kaggle/kaggle.json` (app.py:10-32): configuration and filesystem setup done once at start-up.
- The `print` at app.py:43, and Streamlit's titles, subheaders and markdown rendering (app.py:128-148): UI output. Only the filtering and stripping the page applies is modelled.
- Text.IsSpace: covers Python's whitespace characters up to U+00FF. The other Unicode whitespace characters that `str.strip()` also removes are not modelled.
- Resources.HfDataset: a JSON `id` is either a string or missing, and every element of the array is an object. Not modelled: a non-string `id` value; an array element that is not an object, such as `[1]` or `["a"]`, where `dataset.get` raises AttributeError (app.py:54); and a 200 response whose body is not a JSON array. In `app.py` these raise or produce other text. The model cannot take these responses as input.
- Workflow.Submit: shows "An error occurred: ..." (app.py:145-146) only for the error `open()` raises on the resource file. Exceptions raised by the HTTP requests, by JSON decoding, by HTML parsing or by the hosted model call happen outside the model, whose inputs are those calls' results.
- Files.FileSystem.refused: which names the operating system refuses (an industry containing `/` whose directory is missing, a NUL character, a name too long) is given, not derived from the name.
- Files.FileSystem.Write: a write that fails after the file was opened (a full disk, say) is not modelled; the model treats every write after a successful open as succeeding.

