# Keyword feedback generator and query reshaper, modelled in Dafny

This project models the two in-memory transformations of a small dataset
tool for spreadsheet question/answer tasks:

- **The feedback generator** (`add_feedback.py`). For each task it lower-cases
  the prompt and scores every rule by how many entries of its `keywords` list,
  lower-cased, occur as substrings of the prompt. It keeps the first rule with
  the highest positive score and picks one of that rule's `feedback`
  templates at random. When no rule matches, or the picked template is
  empty, it falls back to one of four fixed clarification questions. The
  per-task loop of `main` writes the result into a `feedback` field of every
  task.
- **The query reshaper** (`json_preprocessor.py`, `convert_queries`). It
  projects every record of the document's `queries` list, in order, onto a
  record with the keys `task_id`, `spreadsheets`, `prompt` and `answer`.

Files:

- `wrappers.dfy`: `Option` and `Result`.
- `json.dfy`: loaded JSON values and Python truthiness. It also has `dict.get`
  and the Python exceptions the code can raise (`KeyError`, `AttributeError`,
  `IndexError`, `TypeError`).
- `text.dfy`: lower-casing and substring containment.
- `feedback.dfy`: rules, scores, the winning rule, `find_matching_rule`,
  `generate_feedback` (with `Fallback`, the four fixed questions of
  add_feedback.py:56-61) and the task loop of `main`. `Task` is a class
  holding the loaded JSON value of one task, which the loop updates in place,
  as Python updates the dict.
- `preprocessor.dfy`: the per-query conversion loop of `convert_queries`.

Modelling choices:

- `Winner` is an independent reference definition of the winning rule. It
  is built from the back of the list. `FindMatchingRule` keeps the source's
  left-to-right scan with a strict `>`, and its loop invariants prove that
  the scan finds the same rule.
- `random.choice` is the method `Choice`. It picks some element with `:|`,
  and its contract says only that the result belongs to the list. An empty
  list gives `IndexError`. Because of this, the contracts of
  `GenerateFeedback` and `AttachFeedback` describe the set of possible
  feedback strings (`MayReturn`) rather than one string.
- Errors are results, not preconditions. A task that is not a JSON object
  gives `TypeError`, a task without `prompt` gives `KeyError`, and a prompt
  that is not a string gives `AttributeError`. A
  winning rule with an empty `feedback` list gives `IndexError`. A document
  or query that is not an object gives `AttributeError`, and a `queries`
  value that cannot be iterated gives `TypeError`.
- Keywords are a list, not a set, so duplicate keywords count twice
  (`DuplicateKeywordCountsTwice`). An empty `feedback` list on the winning
  rule raises `IndexError` (`Raises`), so generating feedback can fail. No
  modelled code produces a `title` field, so converted records have exactly
  four keys.

## Model

| member | source | states |
|---|---|---|
| Text.Contains | add_feedback.py:33 | `kw in p` holds exactly when the keyword occurs at some position of the prompt |
| Text.EmptyIsContained | add_feedback.py:33 | the empty keyword is contained in every prompt |
| Text.LowerChar | add_feedback.py:28 | capital ASCII letters map to their lower-case letters, everything else is unchanged, and no capital letter remains |
| Text.Lower | add_feedback.py:28 | the lower-cased string has the same length, and each character is the lower-cased character at the same position |
| Text.LowerIdempotent | add_feedback.py:28 | lower-casing an already lower-cased prompt changes nothing |
| Text.ContainsIgnoringCase | add_feedback.py:28-33 | a stretch of the prompt that equals the keyword up to case makes the lower-cased keyword occur in the lower-cased prompt |
| Text.ContainsOnlyIgnoringCase | add_feedback.py:28-33 | conversely, every occurrence of the lower-cased keyword in the lower-cased prompt comes from a stretch of the prompt that equals the keyword up to case, so lower-casing adds no spurious matches |
| Feedback.Score | add_feedback.py:33 | a rule's score never exceeds the number of entries in its keyword list |
| Feedback.Hits | add_feedback.py:33 | the score never exceeds the number of keyword entries |
| Feedback.HitsExtremes | add_feedback.py:33 | the score is 0 exactly when no keyword matches, and equals the keyword count exactly when every keyword matches |
| Feedback.HitsCountsPositions | add_feedback.py:33 | the score equals the number of positions in the keyword list whose entry matches |
| Feedback.HitsAppend | add_feedback.py:33 | scores add up over concatenated keyword lists |
| Feedback.DuplicateKeywordCountsTwice | add_feedback.py:33 | a matching keyword listed twice adds two to the score |
| Feedback.EmptyKeywordAlwaysCounts | add_feedback.py:33 | an empty keyword adds one to the score of every prompt |
| Feedback.Winner | add_feedback.py:29-38 | there is no winner exactly when every rule scores 0 (including no rules); otherwise the winner scores above 0, at least as much as every rule, and more than every earlier rule |
| Feedback.WinningTemplates | add_feedback.py:38-39 | there are templates to pick from exactly when some rule scores above 0, and they are the feedback list of the winning rule |
| Feedback.WinnerUnique | add_feedback.py:32-36 | only one rule can satisfy the winning condition, so the strict `>` scan fixes the result |
| Feedback.TieGoesToEarlierRule | add_feedback.py:34-36 | of two rules tied on the top score, the first one wins |
| Feedback.UpperCasePromptMatches | add_feedback.py:28-33 | the prompt "DEADLINE tomorrow" scores 1 against the keyword "deadline" |
| Feedback.Choice | add_feedback.py:39 | `random.choice` returns an element of the list, or raises `IndexError` exactly when the list is empty |
| Feedback.FindMatchingRule | add_feedback.py:21-41 | returns `None` when no rule scores above 0; otherwise a template of the winning rule, or `IndexError` when that rule has no templates |
| Feedback.GenerateFeedback | add_feedback.py:44-63 | raises exactly when the winning rule has no templates; otherwise returns a non-empty template of the winning rule, or a fallback question when there is no match or the picked template is empty |
| Feedback.FeedbackNonEmpty | add_feedback.py:50-63 | every possible feedback is a non-empty string |
| Feedback.NoMatchGivesFallback | add_feedback.py:38-41 | when every rule scores 0 the feedback never raises and is exactly one of the fallback questions |
| Feedback.NoRulesGivesFallback | add_feedback.py:29-41 | with no rules at all every prompt gets a fallback question |
| Feedback.MatchGivesRuleTemplate | add_feedback.py:50-53 | when the winner has only non-empty templates, the feedback is exactly one of them |
| Feedback.SingleRuleExample | add_feedback.py:21-53 | the rule `["ambiguous"] -> ["Please clarify X"]` gives the feedback "Please clarify X" for the prompt "This value is ambiguous" |
| Feedback.PromptOf | add_feedback.py:76 | reading `task["prompt"]` raises `TypeError` when the task is not an object, `KeyError` when the key is missing and `AttributeError` (at `.lower()`) when the prompt is not a string |
| Feedback.AnnotateTask | add_feedback.py:76-77 | one task gains a `feedback` field holding a possible feedback for its prompt, with its other fields unchanged; on an exception the task is untouched |
| Feedback.AttachFeedback | add_feedback.py:74-78 | returns the same tasks in the same order; each gains a `feedback` field holding a possible feedback for its prompt, and nothing else changes; on an exception the earlier tasks are updated and the failing task and later ones are untouched |
| Json.Truthy | json_preprocessor.py:21 | a JSON value is falsy (as in `if filename` here and `if feedback:` at add_feedback.py:52) exactly when it is null, false, 0, the empty string, the empty list or the empty object |
| Json.Get | json_preprocessor.py:13-16 | `item.get(k)` is the stored value, or null when the key is absent |
| Preprocessor.QueryItems | json_preprocessor.py:8 | a missing `queries` key gives the empty list; a list is iterated as is; a non-object document raises `AttributeError`, and the only other error is `TypeError` |
| Preprocessor.Spreadsheets | json_preprocessor.py:21 | `spreadsheets` has at most one element; it is `[FileName]` exactly when `FileName` is truthy and `[]` exactly when it is not |
| Preprocessor.Convert | json_preprocessor.py:13-24 | the record has exactly the keys `task_id`, `spreadsheets`, `prompt` and `answer`; `task_id`, `prompt` and `answer` are the values of `id`, `Question` and `FinalAnswer`, or null when absent |
| Preprocessor.ConvertQueries | json_preprocessor.py:8-26 | one output record per query, in order, record i being the conversion of query i; fails with `AttributeError` exactly when some query is not an object |
| Preprocessor.Restore | json_preprocessor.py:19-24 | a converted record gives back values for exactly the four source keys |
| Preprocessor.ConvertIsLossless | json_preprocessor.py:13-24 | for a query whose four fields are present and whose file name is truthy, restoring its converted record gives back those four fields |
| Preprocessor.FalsyFileNameDropped | json_preprocessor.py:14-21 | a falsy `FileName` gives an empty `spreadsheets`, the same as a missing one |

## Left out

- File I/O and JSON reading and writing are not modelled. This covers `load_rules`, `load_tasks`, the `open`, `json.load` and `json.dump` calls in `main` and `convert_queries`, the progress messages and the hard-coded file paths. These are plumbing around the modelled loops.
- Feedback.Choice: models only that the pick is a member of the list, not that the pick is uniform.
- Text.Lower: ASCII-only. Python's `str.lower` also maps non-ASCII capitals, which the model leaves unchanged.
- Rules are typed records. In the source, a rule without `keywords`, or with a non-string entry in `keywords`, raises; a rule without `feedback` raises only when it wins. `Rule` gives every rule both lists, so the model cannot represent these malformed rules, including a losing rule without `feedback`, which raises nothing.
- The truthiness test on `best_rule` (add_feedback.py:38) is always true once a rule is kept, because a loaded rule is a non-empty dict. The model keeps only the `Some` test.
- Feedback.AttachFeedback: requires the task objects to be pairwise distinct. `json.load` never makes two list entries share one dict, and the model does not cover aliased tasks.
- JSON objects are maps, so key order is not modelled: neither the order of a converted record's keys nor where `feedback` lands in a task (Python appends a new key at the end and keeps an existing key in place).
- Feedback.AttachFeedback: takes the loaded task file to be a JSON list of tasks, and the rules file to be a list of rules. Other shapes of these files are not modelled: iterating a non-empty object yields its keys, so `key["prompt"]` raises `TypeError`; `{}` or `""` gives zero tasks and no error; null, a number or a boolean raises `TypeError` because it is not iterable.
- JSON numbers are integers. Floats only pass through, except that `0.0` is falsy, as `0` is.
- Iterating a non-empty JSON object as `queries` is modelled as an immediate `AttributeError`. Python would iterate its keys, and the first key already fails at `.get`.
- The derived `title` field is not part of this model. No modelled code computes it.
