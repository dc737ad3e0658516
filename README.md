# Connext Team Builder core, in Dafny

A model of the logic inside `main.py`, the Streamlit page that suggests job
roles for a company and compares the cost of staffing them in the
Philippines and in the United States. The page asks a local language model
for a role analysis, a Python list of roles, and a salary JSON object per
role. Around those calls sits a small deterministic core, modelled here:

- **Text extraction** (`extraction.dfy`): `extract_and_parse_json` takes
  the slice from the first `{` to the last `}`; `extract_and_convert_list`
  takes the leftmost non-greedy `[...]` match. The library parsers
  `json.loads` and `ast.literal_eval` are parameters. Each maps a text to a
  value or to the exception it raises.
- **Salary validation** (`salary_validation.dfy`):
  `validate_and_convert_salary_json`, with its two paths as written. A dict
  is checked for key presence only. A string is parsed and then checked
  against the 10000 USD ceiling only, because the structural verdict is
  overwritten. A missing key raises a `KeyError` that the handler does not
  catch.
- **Input filters** (`filters.dfy`): the three keyword filters, the gates
  at main.py:183 and main.py:238, and the split of suggested roles into
  relevant and irrelevant ones.
- **Role edit round trip** (`role_edit.dfy`): the roles are joined with
  `", "` into a text area, split back on `","` and each piece is stripped.
- **Per-role salary loop** (`salary_loop.dfy`): each relevant role is
  retried until a reply both extracts and validates. The chat client is a
  finite script of replies.
- **Cost calculation** (`cost.dfy`): an in-place loop adds four cost
  fields to every record, then the page takes four column sums.

Python's values are the `PyValues.Value` datatype (`values.dfy`). Python's
`in`, `[]` and `<` are modelled with the exceptions they raise, so a
`TypeError` or `KeyError` that escapes in the source escapes in the model
too. String helpers (`find`, `rfind`, `lower`, `strip`, `split`, `join`,
substring search) are in `text.dfy`.

Three behaviours of the code are worth knowing:

- The salary prompt at main.py:313 asks for figures below 10000. Only the
  string path of the validator checks this bound. The caller at
  main.py:341 passes the parsed slice between braces, which `json.loads`
  turns into a dict, so that path is never taken and the bound is never
  applied (`SalaryLoop.CeilingNeverEnforced`).
- On the string path, JSON text without a `salary_comparison` entry raises
  a `KeyError` at main.py:62 that the handler at main.py:64 does not catch
  (`SalaryValidation.MissingSectionEscapes`).
- No code checks that salary figures are non-negative
  (`SalaryValidation.DictPathAcceptsAnyFigures`).

## Model

| member | source | states |
|---|---|---|
| Text.Lower | main.py:69 | ASCII lower-casing keeps the length and maps each character by itself |
| Text.Find | main.py:38 | `find` gives -1 exactly when the character is absent; otherwise it gives the position of its first occurrence |
| Text.RFind | main.py:39 | `rfind` gives -1 exactly when the character is absent; otherwise it gives the position of its last occurrence |
| Text.OccursTransitive | main.py:68 | a substring of a substring is a substring |
| Text.Strip | main.py:292 | `strip` gives a part of the text with whitespace only before and after it, and no whitespace at either end of the result |
| Text.StripPadded | main.py:292 | stripping a whitespace-padded, already stripped text gives that text back |
| Text.Split | main.py:292 | `split` gives at least one piece, no piece holds the separator, and joining the pieces gives the text back |
| Text.Join | main.py:290 | `join` of no parts is empty; otherwise it starts with the first part and is as long as the parts plus one separator between each two |
| Text.SplitJoin | main.py:290-292 | splitting a join of separator-free pieces gives the pieces back |
| PyValues.In | main.py:52-54 | Python `in` raises `TypeError` exactly on a value that is not a container |
| PyValues.Subscript | main.py:53 | `d[key]` returns the entry exactly when `d` is a dict holding `key`; otherwise it raises `KeyError` on a dict and `TypeError` on anything else |
| PyValues.LessThan | main.py:62 | `v < bound` is defined exactly on integers and booleans |
| Extraction.BraceSpanFromFind | main.py:38-40 | the brace span is exactly what `find('{')` and `rfind('}')` locate when the `{` comes first |
| Extraction.ExtractAndParseJson | main.py:37-47 | a failed extraction always returns `None` as its value |
| Extraction.ParseJsonWithoutBraces | main.py:38-41 | with no `{` that a later `}` follows, the result is `(None, False)` |
| Extraction.ParseJsonOfSpan | main.py:42-47 | with a brace span, the parser sees exactly that slice, which opens with `{` and closes with `}`; a decoding error gives `(None, False)` and any other exception escapes |
| Extraction.ParsedJsonHasSpan | main.py:37-47 | any result but `(None, False)` comes from a brace span |
| Extraction.BracketSpanFromFind | main.py:23 | the bracket span is the first `[` and the first `]` after it |
| Extraction.ExtractAndConvertList | main.py:22-35 | `SyntaxError` and `ValueError` never escape |
| Extraction.ListWithoutBrackets | main.py:23-35 | with no `[` that a later `]` follows, the result is `None` |
| Extraction.ListOfSpan | main.py:25-33 | with a bracket span, the evaluator sees exactly that slice, which has no `]` inside; the result is the list's items, or `None` for a non-list, `SyntaxError` or `ValueError`; other exceptions escape |
| Extraction.ConvertedListHasSpan | main.py:22-35 | any result but `None` comes from a bracket span |
| SalaryValidation.IsValidSalaryComparison | main.py:50-55 | true exactly when the keys are present in Python's sense of `in`; on a dict it raises exactly when the `salary_comparison` entry is not a container, and only `TypeError` |
| SalaryValidation.NumericCheck | main.py:62 | true exactly when both figures are numbers below 10000; exactly which inputs raise `KeyError`; no other exception but `TypeError` |
| SalaryValidation.TryBlock | main.py:60-63 | a non-string raises `TypeError`; a result is the value the parser gave for the string, with the verdict of the ceiling check |
| SalaryValidation.ValidateAndConvertSalaryJson | main.py:49-65 | a dict comes back unchanged with its key-presence verdict; a valid non-dict is below the ceiling |
| SalaryValidation.DictPathRaisesOnlyTypeError | main.py:56-58 | on a dict the only exception is the uncaught `TypeError` of a non-container `salary_comparison` |
| SalaryValidation.NonTextRejected | main.py:59-65 | a value that is neither a dict nor a string gives `(None, False)` |
| SalaryValidation.UndecodableRejected | main.py:59-65 | a string that is not JSON gives `(None, False)` |
| SalaryValidation.CeilingTypeErrorRejected | main.py:60-65 | parsed text whose figures raise `TypeError` in the ceiling comparison gives `(None, False)` |
| SalaryValidation.KeyErrorEscapes | main.py:60-65 | parsed text whose ceiling comparison hits a missing key (the section, `philippines` or `united_states`) raises a `KeyError` that escapes the handler |
| SalaryValidation.HandlerSwallowsDecodeAndTypeErrors | main.py:64-65 | off the dict path, no escaping exception is a `JSONDecodeError` or a `TypeError` |
| SalaryValidation.StructuralCheckHasNoEffect | main.py:60-62 | removing the structural check at line 61 changes no outcome, exceptions included |
| SalaryValidation.StringPathReturnsParsed | main.py:59-63 | on a string that parses and whose figures compare, the result is the parsed value with the ceiling verdict |
| SalaryValidation.StringVerdictIsCeilingOnly | main.py:59-63 | on a string that parses, the verdict is valid exactly when both figures are below 10000 |
| SalaryValidation.DictPathAcceptsAnyFigures | main.py:56-58 | a dict is accepted with any integer figures, however large or negative |
| SalaryValidation.DictPathAcceptsStringSection | main.py:50-58 | a dict whose `salary_comparison` is a string that mentions both keys is accepted |
| SalaryValidation.MissingSectionEscapes | main.py:62-64 | JSON text without `salary_comparison` raises a `KeyError` that escapes the handler |
| Filters.AnyPhraseOccurs | main.py:69 | true exactly when some lower-cased phrase is a substring of the lower-cased text |
| Filters.CheckInputSpecificity | main.py:67-71 | false exactly when some generic phrase occurs |
| Filters.InputIsOutOfContext | main.py:82-87 | true exactly when some out-of-context phrase occurs |
| Filters.IsRelevantToJobsAndBusiness | main.py:89-94 | true exactly when some relevance keyword occurs |
| Filters.DescriptionRejected | main.py:174-183 | a description starting with "http" is never rejected; any other is rejected exactly when it is generic, out of context, or has no relevance keyword |
| Filters.AdditionalInfoRejected | main.py:238 | additional info is rejected exactly when its lower-cased text equals one of four vague answers or no relevance keyword occurs in it |
| Filters.YouIsEnoughToReject | main.py:67-70 | any input containing "you" in any letter case fails the specificity check |
| Filters.YouSubsumesDoYouAndAreYou | main.py:68 | "do you" and "are you" add nothing beyond "you" |
| Filters.DoYouQuestionsRejected | main.py:183 | every description opening with "Do you", as the page's own example at main.py:144 does, is rejected |
| Filters.VagueAnswerRejected | main.py:238 | a vague answer typed in any letter case is rejected |
| Filters.RelevantRoles | main.py:77 | no kept role occurs in the description |
| Filters.IrrelevantRoles | main.py:78 | every kept role occurs in the description |
| Filters.SimulateJobRelevanceClassification | main.py:73-80 | empty input gives `([], [])`; "relevant" roles are those the description does not mention and "irrelevant" ones are those it does |
| Filters.RolesSplitCounts | main.py:77-78 | every role lands in exactly one list, counting repeats |
| Filters.RolesKeepOrder | main.py:77-78 | both lists keep the input order |
| Filters.ClassificationPartitions | main.py:73-80 | the two lists partition the input: lengths add up, the multisets add up, and both are subsequences |
| Filters.NurseIsIrrelevant | main.py:78 | a role the description names is classified irrelevant |
| RoleEdit.RolesToText | main.py:290 | an empty list shows as an empty text; otherwise the text is the roles separated by commas, each but the first after one space |
| RoleEdit.TextToRoles | main.py:292 | the edited text gives at least one role, and each role is stripped and comma-free |
| RoleEdit.StripNoComma | main.py:292 | stripping a comma-free piece leaves no comma in the result |
| RoleEdit.Padded | main.py:290 | the first role is kept as it is and every later role gets one leading space |
| RoleEdit.JoinWithSpace | main.py:290 | joining with ", " is joining with "," after a space is put before every role but the first |
| RoleEdit.SpacedRole | main.py:292 | stripping a role after one leading space gives back the stripped role |
| RoleEdit.PaddedPieces | main.py:292 | the padded roles are comma-free, and stripping each gives back the original roles |
| RoleEdit.EditRoundTrip | main.py:290-292 | an unedited box gives the same list back, for a non-empty list of stripped, comma-free roles |
| RoleEdit.EmptyListBecomesOneBlankRole | main.py:290-292 | an empty list comes back as one empty role |
| SalaryLoop.JudgeReply | main.py:336-346 | an accepted reply is a dict whose `salary_comparison` has both country keys |
| SalaryLoop.FirstDecisive | main.py:308-346 | finds the first reply that is not retried, and all replies before it are retried |
| SalaryLoop.RetryRole | main.py:308-346 | the inner loop uses replies up to the first decisive one and returns its verdict; an accepted value has both country keys |
| SalaryLoop.Collect | main.py:305-354 | the loop as a function of the reply script: it keeps the records it started with and uses no more replies than the script holds |
| SalaryLoop.SalaryRetryLoop | main.py:305-354 | the records, the replies used and how the loop ends are those of `Collect` |
| SalaryLoop.CollectShape | main.py:305-354 | at most one record per role is appended, after those already there; the loop completes exactly when every role has its record, and runs out of replies only after using them all |
| SalaryLoop.JudgeAcceptsOnlySalaries | main.py:336-346 | whatever the parser, every reply the verdict function accepts has a `salary_comparison` entry with both country keys |
| SalaryLoop.AcceptedRole | main.py:348-353 | a role whose first decisive reply is accepted with a `salary_comparison` entry gets one record from that entry, and the loop goes on after that reply |
| SalaryLoop.StopsWithoutAccept | main.py:346-351 | a role whose first decisive reply is not such an acceptance ends the loop without a further record |
| SalaryLoop.KeepsEarlierRecords | main.py:305-354 | the loop only appends to the records it started with |
| SalaryLoop.RecordAt | main.py:348-353 | each new record names the role at its index, is in USD, and holds the `salary_comparison` entry of a reply the verdict function accepted |
| SalaryLoop.CollectRecords | main.py:348-353 | when every accepted reply has both country keys, record `i` names role `i`, is in USD and holds a comparison with both country keys |
| SalaryLoop.AcceptStep | main.py:346-353 | a reply accepted with a `salary_comparison` entry settles the current role with one record and moves on to the next role |
| SalaryLoop.AcceptingClientCompletes | main.py:305-354 | if every reply is accepted with a `salary_comparison` entry and there are enough replies, the loop completes, using one reply per role and adding one record per role |
| SalaryLoop.AcceptOnSpan | main.py:336-344 | when braces parse to dicts, a reply with a brace span is accepted exactly when its slice parses to a dict with the keys |
| SalaryLoop.SpanlessRetries | main.py:336-339 | a reply with no `{` before a `}` is retried |
| SalaryLoop.CeilingNeverEnforced | main.py:336-346 | when braces parse to dicts, acceptance is key presence alone and the 10000 ceiling is never applied |
| CostCalculation.CostsOf | main.py:387-390 | savings are the US cost minus the Philippines cost; the Connext cost is the Philippines cost; each cost is the head count times that country's figure |
| CostCalculation.WithCosts | main.py:387-390 | a row keeps its role, currency, figures and head count, and gains the cost fields of its own figures |
| CostCalculation.CalculateCosts | main.py:386-390 | each row of the array becomes its old self with costs added, and the array keeps its length |
| CostCalculation.ColumnSum | main.py:405-408 | `.sum()` of a column is not negative when no cell is, and not positive when no cell is |
| CostCalculation.OverallTotals | main.py:405-408 | the Connext total equals the Philippines overall cost |
| CostCalculation.TotalsAgree | main.py:405-408 | the overall costs are the two payrolls; expected savings are US overall minus Philippines overall; the Connext total equals the sum of the `connext_total_cost` column |
| CostCalculation.SavingsNonNegative | main.py:405-408 | when no role costs more in the Philippines, the expected savings are not negative |
| CostCalculation.CalculatedRows | main.py:386-390 | after the loop, every row carries its costs and the payrolls are unchanged |

## Left out

- Streamlit rendering, widgets, reruns and `st.session_state` are not modelled. Session values are plain parameters and results. This includes the employee-count grid at main.py:368-378; the head count is a `nat` field of each cost row.
- `ollama.chat` (main.py:193, 213, 249, 269, 333) is a network service. The salary loop takes a finite script of replies instead, and the prompt text is not modelled.
- SalaryRetryLoop: the source retries without bound. The model stops with `RepliesExhausted` when the reply script runs out, so the script's length acts as fuel. Termination of the real loop is not claimed.
- SalaryRetryLoop: the verdict function is passed in as the ghost parameter `judge`, and the method's precondition ties it pointwise to `JudgeReply` for the given parser.
- The chat-driven orchestration at main.py:173-228 and main.py:243-284 is not modelled, apart from the gates at main.py:183 and main.py:238 and the functions it calls. That code sequences chat calls, role extraction and classification.
- `requests`, Lottie loading (main.py:13-20) and `analyze_url_content` (main.py:96-109) are network I/O. In `analyze_url_content`, the call `find('about us', 'our company')` at main.py:101 raises a `TypeError`, and main.py:108 swallows it, so that function never returns content.
- The grammars of `json.loads` and `ast.literal_eval` are not modelled; both parsers are parameters. `ParsesBracesAsDicts` states the one property of `json.loads` that `CeilingNeverEnforced` relies on.
- `ast.literal_eval` values that JSON cannot express, such as tuples, sets, floats and bytes, are outside `Value`. So are floats from `json.loads`.
- pandas reshaping, the CSV export and the float display formatting (main.py:356-361, 392-403, 421-441) are not modelled. They are library code, I/O and presentation.
- CostCalculation.CostRow: the salary figures are integers. Python would also multiply a float, repeat a string, or raise on other values at main.py:387-388. Those cases are not modelled, and neither is pandas' 64-bit integer overflow in the column sums.
- Filters.SimulateJobRelevanceClassification: roles are strings here. In the source, a non-string item of the list that `ast.literal_eval` returns (a number, say) passes main.py:216, and `role.lower()` at main.py:77 then raises `AttributeError`; that exception is not modelled. `RoleEdit.RolesToText` likewise takes strings, where `', '.join` would raise `TypeError`.
- Text.Lower and Text.IsSpace cover ASCII only. Python's Unicode lower-casing and whitespace classes are not modelled.
