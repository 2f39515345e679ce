# CV assistant core, modelled in Dafny

The application is a chat assistant. It interviews a user about their
working life and builds up a CV record, a nested JSON document in the shape
of a fixed Norwegian schema (`CV_SCHEMA`). After every answered question a
language model turns the exchange into a JSON fragment. `deep_update`
folds that fragment into the record. `calculate_cv_completion` reports how
much of the record is filled. Around this sit a few helpers:

- the tagged prompt builder and the transcript of recent messages;
- the filter for the model's suggestion replies;
- the parser that turns a markdown bullet list of suggestions into
  clickable pills;
- the pill toggle;
- combining the selected pills with the typed message, and escaping the
  result;
- the session-state initialisation and the extraction step that ties
  these together.

The model represents these as follows:

- Values are immutable. A JSON value is the datatype `Json.Json`. A dict is
  its entries in insertion order (`seq<Field>`), not a map, because
  `deep_update` walks keys in order and appends new keys at the end.
- The Streamlit session is the record `Session.State`, with one `Option`
  field per key the code touches; a key missing from the session is
  `None`.
- Each Python exception the code can raise is a `Failure` of a `Result`.

Modules, one per source file plus shared ones:

| module | models |
|---|---|
| `Wrappers` | `Option`, `Result` |
| `Json` | decoded JSON, dict lookup/insert, Python `==` and truthiness |
| `PyStr` | `str.strip`, `split`, `join`, `replace`, `upper` |
| `DeepUpdate`, `DeepUpdateProps` | `deep_update` and its properties |
| `Completion` | `calculate_cv_completion` and `count_fields` |
| `Schema` | `CV_SCHEMA` |
| `DataUtils` | `save_json_str_to_dict`, `extract_personalia_from_json`, `parse_examples_to_list` |
| `LlmClient` | `build_prompt`, `history_to_text`, `generator_to_string`, the history window, the suggestion filter |
| `Session` | the session keys and the errors of a step |
| `SessionHelpers` | `initialize_app_session_state`, `extract_and_save_json_data` |
| `UiHelpers` | the suggestion toggle, `combine_pills_with_user_input` |
| `App` | `process_user_message`, `check_user_interaction`, `clear_conversation` |

Behaviour of the code that a reader might not expect, which the model
follows:

- `deep_update` can raise. The fragment entry is reconciled against the
  last list entry by the condition on line 50 of src/data_utils.py, which
  Python groups as `(key in last and last[key] == "") or last[key] ==
  value`. So a key the last entry lacks raises `KeyError`, and the
  "add the missing key" branch (lines 52-53) is unreachable. A dict
  fragment entry with at least one key raises `TypeError` when the last
  list entry is not a dict; an empty dict entry `{}` leaves the list as it
  was. A list fragment entry raises `AttributeError` whenever the list it
  goes into is non-empty.
- After appending a fragment entry the key loop does not stop (line 55).
  Later keys are compared against the appended entry itself.
- A primitive field counts as filled by `value and str(value).strip()`, so
  `0`, `False` and `None` are unfilled and any non-zero number is filled.
- `old_history + recent_history` is always the whole message list (lines
  97-98), not only when there are more than five messages.

## Model

| member | source | states |
|---|---|---|
| DeepUpdate.Merge | src/data_utils.py:10-62 | A pair that is not dict/dict or list/list is overwritten by the fragment; a successful dict merge is a dict; a successful list merge is a list that never shrinks and keeps every entry before the old last one |
| DeepUpdate.MergeKeySpec | src/data_utils.py:22-28 | One fragment key fails exactly when it is shared and its recursive merge fails; otherwise the key holds the fragment value (new key) or the recursive merge (shared key), every other key is unchanged, and the key set grows by exactly that key |
| DeepUpdate.MergeItems | src/data_utils.py:30-58 | A successful list merge never shortens the list and keeps every entry before its old last one |
| DeepUpdate.MergeItem | src/data_utils.py:37-57 | Reconciling one fragment entry keeps the list growing in the same sense; an empty list receives the entry as it is; a primitive entry always ends up present in the list; in a non-empty list, a list entry raises `AttributeError`, an empty dict entry changes nothing, and a dict entry with keys raises `TypeError` when the last entry is not a dict |
| DeepUpdate.Line50 | src/data_utils.py:50 | The condition raises exactly when the last entry is not a dict or lacks the key; it is true exactly when the current value equals `""` or the fragment's value; false only when the key is present |
| DeepUpdate.EntryStep | src/data_utils.py:49-57 | One key of the loop either replaces the last entry by its merge with the fragment entry or appends the fragment entry; the list stays non-empty and growing; a last entry that is not a dict raises `TypeError` |
| DeepUpdate.MergeEntry | src/data_utils.py:49-57 | The whole key loop keeps the list growing; with a key left to process and a last entry that is not a dict it raises `TypeError` |
| DeepUpdateProps.MergeFieldsSucceeds | src/data_utils.py:22-28 | A dict merge succeeds exactly when every shared key's recursive merge succeeds at the point it is reached |
| DeepUpdateProps.MergeFieldsKeys | src/data_utils.py:23-27 | The merged dict's keys are the record's keys plus the fragment's keys, and no key is lost |
| DeepUpdateProps.MergeFieldsOther | src/data_utils.py:23-27 | A key the fragment does not mention keeps its value |
| DeepUpdateProps.MergeFieldsAt | src/data_utils.py:23-27 | Every fragment key ends up merged: inserted verbatim when new, the recursive merge of the old value when shared |
| DeepUpdateProps.MergeFieldsValues | src/data_utils.py:23-27 | The value of each fragment key in the result, for both new and shared keys |
| DeepUpdateProps.DictMergeKeywise | src/data_utils.py:22-28 | A dict/dict merge succeeds exactly when every shared key merges, and then it is a dict with the keywise values and keys above |
| DeepUpdateProps.MergeFieldsFlat | src/data_utils.py:22-28 | Merging a fragment of primitive values into a dict is a plain keywise overwrite |
| DeepUpdateProps.UpdateLookup | src/data_utils.py:23-27 | After a keywise overwrite each fragment key holds the fragment's value and every other key its old one |
| DeepUpdateProps.EntryHeldIsStable | src/data_utils.py:49-57 | A flat fragment entry whose every value the last entry already holds leaves the list unchanged |
| DeepUpdateProps.FlatEntryFills | src/data_utils.py:49-51 | When the first key's current value is `""` or equal to the fragment's, a flat entry overwrites the last entry's fields and the length stays |
| DeepUpdateProps.FlatEntryAppends | src/data_utils.py:54-55 | When the first key conflicts, a flat entry is appended once and nothing else changes |
| DeepUpdateProps.FlatEntryFirstKeyDecides | src/data_utils.py:49-57 | For a flat fragment entry only its first key decides the outcome: `TypeError`, `KeyError`, fill or append, with the resulting list in each case |
| DeepUpdateProps.PrimitiveItemsUnion | src/data_utils.py:38-42 | A list of primitives merges as a union: the old list is a prefix, every fragment value ends up present, each appended value comes from the fragment and was not present before, and nothing changes when all are present |
| DeepUpdateProps.PrimitiveItemsPresent | src/data_utils.py:38-42 | Fragment values that are all present already leave the list unchanged |
| DeepUpdateProps.ListFreeMerges | src/data_utils.py:10-62 | A fragment with no list anywhere always merges without raising |
| DeepUpdateProps.MergeSelf | src/data_utils.py:10-62 | A list-free value merged into itself is unchanged |
| DeepUpdateProps.MergeIdempotent | src/data_utils.py:10-62 | Merging the same list-free fragment twice gives the same record as merging it once |
| DeepUpdateProps.ListFragmentNotIdempotent | src/data_utils.py:44-57 | With a list the merge is not idempotent: a two-entry list lands in an empty list as it is and is appended again on the second merge |
| DeepUpdateProps.MergeWF | src/data_utils.py:10-62 | Merging keeps every dict at every depth free of repeated keys |
| Completion.CountDict | src/data_utils.py:144-172 | The filled count of a dict never exceeds its total |
| Completion.CountValue | src/data_utils.py:145-172 | A primitive is one field, filled when truthy and not blank; an empty list is one unfilled field unless its key is `Sertifikater` or `Annet`, when it is nothing |
| Completion.CountItem | src/data_utils.py:154-163 | A string entry of a list is one field, filled when not blank; an entry that is neither dict nor string counts nothing |
| Completion.CountFields | src/data_utils.py:138-179 | Counts are sound, and anything but a dict or list counts nothing |
| Completion.Score | src/data_utils.py:181-189 | The score lies in [0, 1]; it is 1 exactly when the record is non-empty, has a counted field and fills all of them; an empty record or one with nothing filled scores 0 |
| Completion.ScoreFull | src/data_utils.py:129-189 | A score of 1 is equivalent to a non-empty record with counted fields that leaves none empty, stated independently of the counts |
| Completion.CountFieldsFull | src/data_utils.py:138-179 | Filled equals total exactly when no counted field is empty, at any depth |
| Completion.CountDictAppend | src/data_utils.py:144-172 | Counting a dict is additive over its entries |
| Completion.OptionalEmptyListNeutral | src/data_utils.py:164-167 | An empty `Sertifikater` or `Annet` list adds nothing to either count |
| Completion.FillFieldAddsOne | src/data_utils.py:168-172 | Replacing a blank string field by a non-blank one adds one filled field and keeps the total |
| Completion.NonBlankIsStrip | src/data_utils.py:159-163 | A string counts as filled exactly when its stripped form is non-empty |
| Schema.SchemaSections | src/schemas.py:4-77 | The schema is a dict with the seven sections in their order |
| Schema.SchemaCounts | src/schemas.py:4-77 | The empty schema counts 30 fields, none filled |
| Schema.SchemaScore | src/schemas.py:4-77 | The empty schema scores 0 |
| Schema.SchemaShaped | src/schemas.py:4-77 | Every scalar in the schema is `""`, every list is empty exactly when it is `Sertifikater` or `Annet` and otherwise holds one template dict of blank strings |
| DataUtils.SaveJsonStrToDict | src/data_utils.py:65-79 | Text that does not decode leaves the record (or the schema, on a fresh session) unchanged; a decoded scalar replaces the record, and so does any non-dict reply when the record is a dict; merging a dict into a dict gives a dict |
| DataUtils.FreshRecordKeepsSections | src/data_utils.py:72-77 | On a fresh session a dict reply keeps all seven schema sections, and each section the reply does not mention stays the blank template |
| DataUtils.Subscript | src/data_utils.py:95-96 | `d[key]` succeeds exactly on a dict holding the key, with `TypeError` on a non-dict and `KeyError` on a missing key |
| DataUtils.ExtractPersonalia | src/data_utils.py:82-102 | Undecodable text fails; the result succeeds exactly when both `Personalia.Navn` and `Personalia.Fødselsdato` exist and neither is `""`, and then holds those two values; `ValueError` only when both exist |
| DataUtils.BulletText | src/data_utils.py:120-124 | A line yields text exactly when, trimmed, it starts with `- ` or `* `; the text is the trimmed remainder after the two-character marker, and it is non-empty and trimmed |
| DataUtils.ParseExamplesToList | src/data_utils.py:105-126 | The loop returns the bullet texts of the trimmed text's lines, each non-empty and trimmed; empty input gives an empty list |
| DataUtils.BulletTextsTrimmed | src/data_utils.py:119-124 | Every parsed example is non-empty and has no whitespace at either end |
| DataUtils.BulletLine | src/data_utils.py:120-122 | A `- ` line of a clean item parses back to the item |
| DataUtils.ParseRendered | src/data_utils.py:105-126 | Parsing the `- ` bullet list of clean items (non-empty, trimmed, one line) gives back exactly those items |
| PyStr.Strip | src/data_utils.py:117 | The stripped string has no whitespace at either end and is empty exactly when the input is all whitespace |
| PyStr.StripIsInfix | src/data_utils.py:117 | The stripped string is a slice of the input with only whitespace cut off before and after it |
| PyStr.SplitThenJoin | src/data_utils.py:117 | Joining the pieces of a split with the separator gives back the text |
| PyStr.JoinThenSplit | src/llm_client.py:55 | Splitting a join of separator-free pieces gives back the pieces |
| PyStr.ReplaceChar | streamlit_app.py:271-272 | Replacing a character changes the length by the count of that character times the growth, and a character absent from the replacement is gone |
| PyStr.ReplaceCharKeepsOthers | streamlit_app.py:271-272 | Every other character not in the replacement occurs as often as before |
| LlmClient.BuildPromptEmpty | src/llm_client.py:43-50 | The prompt is empty exactly when no argument has truthy contents |
| LlmClient.BuildPromptEdges | src/llm_client.py:43-50 | A non-empty prompt starts with `<` and ends with `>` |
| LlmClient.BuildPromptOne | src/llm_client.py:45-47 | One argument renders as its `<name>` tag when truthy and as nothing otherwise |
| LlmClient.BuildPromptAppend | src/llm_client.py:43-50 | The prompt of two argument lists is their prompts joined by one newline, or the non-empty one |
| LlmClient.HistoryEmpty | src/llm_client.py:53-55 | The transcript is empty exactly for an empty history, and otherwise starts with `[` |
| LlmClient.HistoryAppend | src/llm_client.py:53-55 | The transcript of two non-empty histories is the two transcripts on consecutive lines |
| LlmClient.HistorySplitsBack | src/llm_client.py:53-55 | Splitting the transcript of single-line messages at newlines gives one `[role]: content` line per message |
| LlmClient.GeneratorAppend | src/llm_client.py:148-150 | The string of a concatenated stream is the concatenation of the strings |
| LlmClient.GeneratorSingle | src/llm_client.py:148-150 | A `str` chunk contributes its text, any other chunk nothing |
| LlmClient.GeneratorSkipsOther | src/llm_client.py:148-150 | Dropping a non-`str` chunk anywhere does not change the result |
| LlmClient.HistorySplit | src/llm_client.py:97-98 | The older and the recent messages make up the whole history, in order, and the recent part is the last `min(n, 5)` messages |
| LlmClient.RecentHistoryText | src/llm_client.py:100 | The recent transcript is `None` exactly for an empty history, and otherwise the transcript of the recent window |
| LlmClient.QuestionPromptNoHistory | src/llm_client.py:115-120 | With no messages the `recent_messages` tag is left out |
| LlmClient.QuestionPromptFull | src/llm_client.py:115-120 | With messages, instructions and a question, the prompt is the three tags in order on consecutive lines |
| LlmClient.FilterSuggestions | src/llm_client.py:228-234 | A reply is dropped exactly when its stripped form is shorter than ten characters, and a kept reply is the stripped form |
| LlmClient.FilterIdempotent | src/llm_client.py:228-234 | A kept reply has no whitespace at either end and passes the filter unchanged a second time |
| SessionHelpers.InitializeAppSessionState | src/session_helpers.py:10-31 | The four keys are present afterwards; each present key keeps its value; an untracked session records the `source` parameter, `direct` when absent, and becomes tracked |
| SessionHelpers.InitTouchesOnlyItsKeys | src/session_helpers.py:16-31 | No other session key changes |
| SessionHelpers.InitIdempotent | src/session_helpers.py:16-31 | A second initialisation, with any query parameter, changes nothing |
| SessionHelpers.PersonaliaStep | src/session_helpers.py:59-67 | The personalia step never touches the CV record and changes no key but the name, the date of birth and the first-questions flag |
| SessionHelpers.ExtractAndSaveJsonData | src/session_helpers.py:41-70 | Outside CV mode or with fewer than three messages nothing changes; a missing `messages` key in CV mode fails; any change needs the guard to pass |
| SessionHelpers.ExtractMerges | src/session_helpers.py:69-70 | Past the guard the step succeeds exactly when saving the reply succeeds, the record becomes the saved one, and an undecodable reply leaves it as it was (or the schema) |
| SessionHelpers.ExtractTouchesOnlyItsKeys | src/session_helpers.py:41-70 | Only the record and the three personalia keys can change |
| SessionHelpers.ExtractPersonaliaOutcome | src/session_helpers.py:59-67 | Outside the first questions of a typed CV the personalia keys stay; otherwise a readable reply stores name and date of birth and ends the first questions, and an unreadable one keeps them going |
| UiHelpers.Remove | src/ui_helpers.py:56 | `remove` drops the first occurrence: the result is the list with the entry at the first index holding the element cut out, so it is one shorter and has the same multiset less that element |
| UiHelpers.ToggleMembership | src/ui_helpers.py:55-58 | A click flips the clicked suggestion's membership and no other's, and keeps the selection free of repeats |
| UiHelpers.ToggleTwiceAbsent | src/ui_helpers.py:55-58 | Selecting and then deselecting a suggestion restores the selection exactly |
| UiHelpers.ToggleTwicePresent | src/ui_helpers.py:248-251 | Deselecting and reselecting keeps the same suggestions, the clicked one last |
| UiHelpers.ClickSuggestion | src/ui_helpers.py:232-251 | A click sets the selection, starting from empty when absent, to its toggle and changes no other key |
| UiHelpers.ShareSelection | src/ui_helpers.py:254 | Afterwards the pills and the selection are both the old selection, or the empty list when there was none; every other key is unchanged |
| UiHelpers.CombinePillsWithUserInput | src/ui_helpers.py:156-179 | A missing pill key fails; no pills passes the message through unchanged; otherwise the pills, selection and draft are cleared |
| UiHelpers.CombineText | src/ui_helpers.py:165-178 | With pills, the text is the draft if non-empty, else the pills one per line, then the message on its own line when non-empty; only the three selection keys change |
| UiHelpers.CombineTwice | src/ui_helpers.py:174-179 | After combining, an immediate second call passes its message through and changes nothing |
| UiHelpers.CombineSplitsBack | src/ui_helpers.py:170-172 | Without a draft, splitting the combined text at newlines gives back the pills and then the message |
| App.EscapeMarkdown | streamlit_app.py:271-272 | The escaped message has no `'` |
| App.EscapeCounts | streamlit_app.py:271-272 | Each `$` adds one character and each `'` removes one; every other character but `\` keeps its count |
| App.EscapeRoundTrip | streamlit_app.py:271 | On a message without `'` or `\`, reading `\$` back as `$` restores the message |
| App.ProcessUserMessage | streamlit_app.py:266-273 | The step fails exactly when combining fails; otherwise its text is the escaped combined text, with no `'`, and the session is the one combining left |
| App.PresentAnd | streamlit_app.py:101-102 | `key in state and state.key` is truthy exactly when the key is present with a truthy value |
| App.CheckUserInteraction | streamlit_app.py:99-106 | Each flag is truthy exactly when its key is present and truthy; the first-interaction value is one of the two flags, truthy exactly when one is; history means a non-empty message list |
| App.InitKeepsInteraction | src/session_helpers.py:16-31 | Initialising the session never changes what `check_user_interaction` reports |
| App.ClearConversation | streamlit_app.py:92-96 | The chat becomes empty and both first-interaction keys hold `None`; no other key changes |
| App.ClearedHasNoInteraction | streamlit_app.py:92-106 | After clearing the conversation, all three flags are the stored `None` and there is no history |

## Left out

- The language model, the OpenAI client and `get_response` are not modelled. The stream the model returns for a prompt is a parameter `string -> seq<Chunk>`.
- `json.loads` is a parameter `string -> Option<Json>`, `None` standing for `JSONDecodeError`.
- Floating-point JSON numbers and the `float` arm of the primitive test (line 38 of src/data_utils.py) are left out: `Json` has no floats.
- `calculate_cv_completion` returns a float; the score is a `real` with exact division.
- The `is_required` parameter of `count_fields` is always `True` where it is called, so it is fixed.
- The `print` calls of `deep_update` and `save_json_str_to_dict` are left out: they have no effect on the result.
- DeepUpdate.Merge: on an exception the Python record is left partly updated in place; the model returns only the error and claims nothing about the record.
- The aliasing that in-place updates create is left out; the model treats every value as immutable. `CV_SCHEMA.copy()` (line 73) is shallow, so the first merge into a fresh record also mutates the nested sections of the module-level schema. The model always starts a fresh record from the pristine schema. Likewise the shared list behind `selected_pill_suggestions` and `selected_suggestions` (lines 62 and 254 of src/ui_helpers.py) is modelled as two copies.
- DeepUpdate.EntryStep: Python can merge a list with itself (`deep_update(L, L)`), and there the model, which merges immutable copies, parts ways with it. Two paths lead there. After the append at line 55 of src/data_utils.py the last list entry is the fragment entry itself, so its later keys hold at line 50 and line 51 merges the entry with itself. A fill can also store the fragment's value `v[k]` by reference in the last entry (line 27); a later fragment key holding that same list then holds at line 50 by identity, and line 51 merges the shared list with itself, as with last entry `{"Title": ""}` and fragment entry `{"Title": "X", "Items": L}`. Inside such a self-merge Python enumerates the list it changes. When the self-merge reaches an append (line 55), the list grows under its own loop, which then need not end: merging `[{"Title": "B", "Items": [{"a": "1"}, {"a": "2"}]}]` into `[{"Title": "A", "Items": []}]` never returns. When an in-place fill instead makes a later entry equal to the last one, Python appends nothing: `deep_update(L, L)` with `L = [{"a": "1"}, {"a": ""}]` leaves `[{"a": "1"}, {"a": "1"}]`, while the model appends and returns `[{"a": "1"}, {"a": "1"}, {"a": ""}]`, a longer list. A self-merge can also raise `KeyError` in both, as for `[{"a": "1"}, {"b": "1"}]`. The model always returns; it models neither the non-termination nor these longer results.
- SessionHelpers.ExtractAndSaveJsonData: when the merge raises, the session keeps the schema copy written by line 73 and any personalia already stored; the model returns only the error, not that state.
- `initialize_session_metrics` and `log_event` are left out: src/metrics.py is not part of this model. `metrics["entry_source"]` is the field `entrySource`.
- The timestamp `datetime.fromtimestamp(0)` is the integer 0, and rate limiting is left out.
- Rendering is left out: `st.markdown`, `st.button`, `st.write`, `st.rerun`, streaming and the sidebar. A click is the input of `ClickSuggestion`.
- The instructions of `build_question_prompt` are a parameter. `get_instructions` and `INSTRUCTIONS_GENERATE_DATA_FROM_RESPONSE` depend on configuration text that is not part of this model.
- The `**context` of `build_question_prompt` is always empty. The `SUMMARIZE_OLD_HISTORY` branch does nothing, so it is left out, and so is `generate_chat_summary`.
- PyStr.Upper: case mapping is ASCII only. The filter's `upper() == "NONE"` test never decides the result, because such a reply is shorter than ten characters and is dropped by the length test anyway.
- PyStr.Strip follows `str.strip()` with no arguments over the whitespace characters Python recognises; there is no Unicode normalisation.
- `extract_cv_from_pdf` (src/data_utils.py:192-232) is left out: it reads a PDF and calls the language model.
- The prompt assembly and model call of `generate_adaptive_suggestions` (src/llm_client.py:153-227) are left out; only the filter of its reply is modelled.
- Messages are `{"role", "content"}` records. A message without those keys is not modelled.
