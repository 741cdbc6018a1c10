# Prompt composer of `chat_gpt`, modelled in Dafny

The repository wraps a chat-completion call in a Python function,
`chat_gpt`, whose real work is prompt assembly. The function takes the
user's prompt and a set of keyword flags. When a role is given it puts a
persona sentence in front of the prompt. Then it runs a fixed sequence of
conditional steps. Each step whose flag is set appends one clause to the
prompt: explain for a learner, step-by-step instructions, explain your
logic, the language directive of a code request, the code-feature
requests, the ten-point review list, the snippet between `|||` delimiters,
and so on. A code request also overrides the temperature with 0.2. The
finished prompt and the temperature go to the completion service.

Two versions of the composer exist, and both are modelled:

- `chatGPT.py` has the full composer: sixteen conditional steps. The five
  code features (function, docstring, comments, doctest, imports) are
  worded as tab-indented sub-steps when `step_by_step_code` is set, and as
  plain sentences otherwise. Module `ChatGpt` models it.
- `test.py` has a smaller composer: six conditional steps, every
  clause on a line of its own, and a persona line ended by a new line.
  Module `ChatGptLite` models it.

The model has four modules:

- `Pipeline` holds the meaning of "append fragments one after another".
  `Concat` joins fragments left to right and `TotalLength` sums their
  lengths. `Run` is the accumulator after appending the fragments one by
  one. Its lemmas state where each fragment lands in the result and that
  fragments appear in order.
- `PyValues` covers the two kinds of value `snippet` takes, a boolean and
  a text. It gives their Python truthiness (`if snippet:`) and what an
  f-string renders for them (`str(snippet)`).
- `ChatGpt` and `ChatGptLite` each give a clause datatype in source order
  (`Order`, `Rank`) and the flag that guards each clause (`Enabled`). They
  give the text each clause appends (`Text`) and the specification of the
  final prompt:
  `ComposedPrompt(prompt, o) == RolePrefix(o) + prompt + Concat(Pieces(o))`.
  Here `Pieces(o)` holds one entry per clause: its text when enabled, the
  empty string otherwise.

The imperative `Compose` method follows the source statement by
statement. It puts the persona in front, then runs one `AppendClause` step
per conditional block, in source order, with the temperature override
placed where the source has it. It is proved to produce exactly
`ComposedPrompt` and the right temperature. The lemmas then state what the
composer promises about that prompt:

- the base prompt is kept verbatim, and the composer only adds text;
- the prompt is unchanged exactly when no role and no flag is given;
- each enabled clause appears unaltered at its position;
- clauses appear in source order;
- a clause enabled alone adds exactly its text, and two clauses enabled
  alone add their texts in order;
- in the full composer, the code features are phrased as sub-steps
  exactly when `step_by_step_code` is set, and `include_function`, the one
  flag that enables two clauses, asks for a function twice;
- in the full composer, the step-by-step request and the snippet are glued
  to the preceding text, with no new line in between.

## Model

| member | source | states |
|---|---|---|
| `ChatGpt.Compose` | chatGPT.py:82-144 | The prompt block yields exactly `ComposedPrompt(prompt, o)`: persona in front when a role is given, then each enabled clause appended in source order. The temperature becomes 0.2 when `code` is set and is the caller's value otherwise. |
| `ChatGpt.AppendClause` | chatGPT.py:84-87 | One conditional step: the result is the accumulator followed by the clause's text when its flag is set, and the accumulator unchanged otherwise. |
| `ChatGpt.Expanded` | chatGPT.py:84-144 | The specified suffix is the sixteen clause contributions appended one after another, in the order of the source's `if` blocks. |
| `ChatGpt.Rank` | chatGPT.py:84-144 | Every clause has a position in the pipeline, and `Order` holds that clause at that position. |
| `ChatGpt.RankOfOrder` | chatGPT.py:84-144 | No two positions of the pipeline hold the same clause. |
| `ChatGpt.Text` | chatGPT.py:84-144 | Every clause appends a non-empty text when its flag is set. |
| `ChatGpt.PieceAtRank` | chatGPT.py:84-144 | The contribution of a clause is the pipeline entry at its position. |
| `ChatGpt.PromptKept` | chatGPT.py:82-83 | The persona sentence comes first when a role is given. The user's prompt follows it verbatim, or starts the result when no role is given. |
| `ChatGpt.ComposedLength` | chatGPT.py:82-144 | The final prompt is as long as the role prefix, the prompt and every clause contribution put together, so never shorter than the prompt. |
| `ChatGpt.UnchangedIff` | chatGPT.py:82-144 | The prompt goes out unchanged if and only if the role is empty and no clause's flag is set. |
| `ChatGpt.DefaultsUnchanged` | chatGPT.py:5-32 | With every keyword at its default, the prompt goes out as given. |
| `ChatGpt.ClauseAppears` | chatGPT.py:84-144 | A clause's contribution occurs unaltered at its position in the final prompt: its text when enabled, nothing otherwise. |
| `ChatGpt.ClausesInOrder` | chatGPT.py:84-144 | A clause that comes earlier in the source ends no later than any later clause begins. |
| `ChatGpt.FunctionRequestedTwice` | chatGPT.py:98-102 | With `include_function` set, a function is requested twice, both times with non-empty text, and the code-feature request ends before the closing request of lines 141-142 begins. |
| `ChatGpt.CodeFeaturePhrasing` | chatGPT.py:98-122 | A code feature opens a new line, and is tab-indented (a sub-step) exactly when `step_by_step_code` is set. |
| `ChatGpt.GluedClauses` | chatGPT.py:86-87 | The step-by-step request and the snippet (lines 139-140) start with no new line, so each is glued to what precedes it. |
| `ChatGpt.OnlyClause` | chatGPT.py:84-144 | With no role and exactly one clause enabled, the result is the prompt followed by that clause's text alone. |
| `ChatGpt.OthersOff` | chatGPT.py:84-144 | When no clause but two is enabled, every other position of the pipeline contributes nothing. |
| `ChatGpt.OnlyTwoClauses` | chatGPT.py:84-144 | With no role and exactly two clauses enabled, the result is the prompt followed by the earlier clause's text and then the later one's. |
| `ChatGpt.FunctionOnly` | chatGPT.py:98-142 | With no role and nothing but `include_function` set, for instance `include_function=True` with every other keyword at its default, the prompt is followed by `\nthe output should be a function:` and then `\nThe output should be a function:`, and by nothing else. |
| `ChatGpt.ComposeWithDefaults` | chatGPT.py:5-32 | A call with every keyword at its default, temperature included, sends the prompt unchanged at temperature 0.8. |
| `ChatGpt.CodeRequestOnly` | chatGPT.py:92-94 | `code=True` alone appends `\nUse the <language> program language:` and nothing else. |
| `ChatGpt.ComposedPrompt` | chatGPT.py:82-144 | Definition, no contract: the persona prefix, then the prompt, then the clause contributions in order. |
| `ChatGpt.Persona` | chatGPT.py:82-83 | Definition, no contract: `Act like an <role> with <expertise>:`, with no new line before the prompt. |
| `ChatGpt.RolePrefix` | chatGPT.py:82-83 | Definition, no contract: the persona when the role is not empty, nothing otherwise. |
| `ChatGpt.Enabled` | chatGPT.py:84-144 | Definition, no contract: the flag of each `if` block; `include_function` guards both `Function` and `FunctionOutput`, and the snippet clause is guarded by the snippet's truthiness. |
| `ChatGpt.Defaults` | chatGPT.py:5-32 | Definition, no contract: the keyword defaults that shape the prompt. |
| `ChatGpt.Piece` | chatGPT.py:84-144 | Definition, no contract: what one guarded `if flag: prompt += text` step contributes, the clause's text when its flag is set and nothing otherwise. |
| `ChatGpt.Pieces` | chatGPT.py:84-144 | Definition, no contract: the contributions of the sixteen clauses, in the order of the `if` blocks. |
| `ChatGpt.Suffix` | chatGPT.py:84-144 | Definition, no contract: everything appended after the prompt, the contributions joined in order. |
| `ChatGpt.Position` | chatGPT.py:82-144 | Definition, no contract: where a clause's contribution starts, after the role prefix, the prompt and the contributions of the earlier clauses. |
| `ChatGpt.LearnerText` | chatGPT.py:84-85 | Definition, no contract: `\nExplain it as if to a <level>:`. |
| `ChatGpt.LanguageText` | chatGPT.py:92-93 | Definition, no contract: `\nUse the <program_language> program language:`. |
| `ChatGpt.SnippetText` | chatGPT.py:139-140 | Definition, no contract: the rendered snippet between triple-bar delimiters, with no new line before it. |
| `ChatGpt.SubStep` | chatGPT.py:98-122 | Definition, no contract: the tab-indented wording of each code feature under `step_by_step_code`. |
| `ChatGpt.Standalone` | chatGPT.py:98-122 | Definition, no contract: the plain wording of each code feature otherwise. |
| `ChatGpt.ChecklistFrom` | chatGPT.py:125-137 | Definition, no contract: the ten-step review list from a given line on. |
| `ChatGpt.LineAndRest` | chatGPT.py:125-137 | Definition, no contract: one line of the review list followed by the lines after it. |
| `ChatGptLite.Compose` | test.py:43-59 | The prompt block yields exactly `ComposedPrompt(prompt, o)`: the persona line in front when a role is given, then the six clauses in source order. The temperature becomes 0.2 when `code` is set and is the caller's value otherwise. |
| `ChatGptLite.AppendClause` | test.py:46-48 | One conditional step: the accumulator followed by the clause's text when its flag is set, unchanged otherwise. |
| `ChatGptLite.Expanded` | test.py:46-59 | The specified suffix is the six clause contributions appended one after another, in source order. |
| `ChatGptLite.Rank` | test.py:46-59 | Every clause has a position in the pipeline, and `Order` holds that clause there. |
| `ChatGptLite.RankOfOrder` | test.py:46-59 | No two positions of the pipeline hold the same clause. |
| `ChatGptLite.Text` | test.py:46-59 | Every clause text is non-empty and starts with a new line. |
| `ChatGptLite.PieceAtRank` | test.py:46-59 | The contribution of a clause is the pipeline entry at its position. |
| `ChatGptLite.PromptKept` | test.py:43-45 | With a role, the result starts with the persona line, and that line ends in a new line. The prompt follows it verbatim, or starts the result when no role is given. |
| `ChatGptLite.ComposedLength` | test.py:43-59 | The final prompt is as long as the persona line, the prompt and every clause contribution put together, so never shorter than the prompt. |
| `ChatGptLite.UnchangedIff` | test.py:43-59 | The prompt goes out unchanged if and only if the role is empty and no clause's flag is set. |
| `ChatGptLite.DefaultsUnchanged` | test.py:6 | With every keyword at its default, the prompt goes out as given. |
| `ChatGptLite.ClauseAppears` | test.py:46-59 | A clause's contribution occurs unaltered at its position in the final prompt. |
| `ChatGptLite.ClausesInOrder` | test.py:46-59 | Earlier clauses end no later than later clauses begin. |
| `ChatGptLite.OnlyClause` | test.py:46-59 | With no role and exactly one clause enabled (here every clause has a flag of its own), the result is the prompt followed by that clause's text alone. |
| `ChatGptLite.ComposeWithDefaults` | test.py:76-79 | The first call of `test_chat_gpt`, every keyword at its default, sends the prompt unchanged at temperature 0.8. |
| `ChatGptLite.ComposedPrompt` | test.py:43-59 | Definition, no contract: the persona line, then the prompt, then the clause contributions in order. |
| `ChatGptLite.Persona` | test.py:43-45 | Definition, no contract: `Act like an <role> <expertise>:` followed by a new line. |
| `ChatGptLite.RolePrefix` | test.py:43-45 | Definition, no contract: the persona line when the role is not empty, nothing otherwise. |
| `ChatGptLite.Enabled` | test.py:46-59 | Definition, no contract: the flag of each `if` block, and the snippet's truthiness for the snippet clause. |
| `ChatGptLite.Piece` | test.py:46-59 | Definition, no contract: what one guarded `+=` step contributes, the clause's text when its flag is set and nothing otherwise. |
| `ChatGptLite.Pieces` | test.py:46-59 | Definition, no contract: the contributions of the six clauses, in the order of the `if` blocks. |
| `ChatGptLite.Suffix` | test.py:46-59 | Definition, no contract: everything appended after the prompt, the contributions joined in order. |
| `ChatGptLite.Position` | test.py:43-59 | Definition, no contract: where a clause's contribution starts, after the persona line, the prompt and the earlier contributions. |
| `ChatGptLite.Defaults` | test.py:6 | Definition, no contract: the keyword defaults that shape the prompt. |
| `ChatGptLite.CodeRequestOnly` | test.py:55-57 | `code=True` alone appends `\nUse the <language> program language`, without a colon. |
| `ChatGptLite.SnippetTrueOnly` | test.py:58-59 | `snippet=True` alone appends a new line and `True` between the triple-bar delimiters: the f-string renders the boolean itself. |
| `PyValues.Str` | chatGPT.py:139-140 | `{snippet}` renders `True` exactly for the true boolean, and a text as itself. |
| `PyValues.Truthy` | chatGPT.py:139 | Definition, no contract: `if snippet:` holds for `True` and for a non-empty text. |
| `Pipeline.Concat` | chatGPT.py:84-144 | The join of the appended fragments is as long as their lengths added up. |
| `Pipeline.RunAppendsConcat` | chatGPT.py:84-144 | Appending fragments one at a time to an accumulator leaves the accumulator followed by their join. |
| `Pipeline.ConcatAt` | chatGPT.py:84-144 | Each fragment sits unaltered in the join, right after the fragments before it. |
| `Pipeline.AppearsAfter` | chatGPT.py:82-144 | Each fragment sits unaltered in the result, after the head and the fragments before it. |
| `Pipeline.OffsetsIncrease` | chatGPT.py:84-144 | A fragment ends no later than any later fragment begins. |
| `Pipeline.ConcatEmptyIff` | chatGPT.py:84-144 | The join is empty if and only if every fragment is empty. |
| `Pipeline.Run` | chatGPT.py:84-144 | Definition, no contract: the accumulator after each fragment is appended with `+=`, one at a time. |
| `Pipeline.ConcatPair` | chatGPT.py:84-144 | When all fragments but two are empty, the join is those two in order. |
| `Pipeline.ConcatSingle` | chatGPT.py:84-144 | When all fragments but one are empty, the join is that fragment. |
| `Pipeline.TotalLengthAppend` | chatGPT.py:84-144 | The total length of two runs of fragments, one after the other, is the sum of their totals. |
| `Pipeline.Unroll16` | chatGPT.py:84-144 | The join of sixteen fragments appended to a head equals the sixteen appends written out in order. |
| `Pipeline.Unroll6` | test.py:46-59 | The join of six fragments appended to a head equals the six appends written out in order. |

## Left out

- Reading `../config.ini`, the `ValueError` raised when the `[chatgpt]` section is missing (a missing `api_key` yields `None` silently) and setting the API key (chatGPT.py:72-80, test.py:33-41) are configuration I/O and are not modelled.
- The call to the completion service and the extraction of its reply (chatGPT.py:147-159, test.py:62-74) are a network call. The model stops at the prompt and temperature handed to it.
- The `print` of the prompt (chatGPT.py:145, test.py:60) is output only.
- `model`, `max_tokens`, `top_p`, `frequency_penalty` and `presence_penalty` pass through to the service unchanged and are not modelled.
- The temperature is a Dafny `real`, not a binary floating-point number. The composer only copies it or replaces it with 0.2.
- `ChatGpt.Compose`: the two appends of the `step_by_step_code` block (chatGPT.py:95-97) are one clause, `CodeSteps`, whose text is the two strings joined. The result is the same text.
- `PyValues.Str`: `snippet` is modelled as a boolean or a text only. The f-string rendering of other Python values (numbers, lists, objects) is not modelled.
- `test_chat_gpt` (test.py:76-99) calls the service over the network. Its calls appear only as the prompts and temperatures they would send: `ChatGptLite.ComposeWithDefaults`, `ChatGptLite.DefaultsUnchanged`, `ChatGptLite.OnlyClause`, `ChatGptLite.CodeRequestOnly` and `ChatGptLite.SnippetTrueOnly`.
- The stray Markdown fence on the first line of test.py is not Python and is ignored.
- The quirks of chatGPT.py are modelled as written, not corrected. The step-by-step request and the snippet are glued to the preceding text without a new line. A function is requested twice under `include_function`.
