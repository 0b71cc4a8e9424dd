# glai conversation history and text helpers, in Dafny

This project models the self-contained core of the `glai` Python package. It covers four parts:

- **The conversation history** of `glai/back_end/messages.py`.
  - `AIMessage` is a mutable tagged message, modelled as a class with a value snapshot (`Message`).
  - `AIMessages` is the dict-backed history, modelled as a class. It holds an insertion-ordered dict from int id to message object and an id generator.
  - `LoadedMessages` is the list-backed form that `AIMessages.from_dict` produces, modelled as a datatype.
- **The chunking helpers** of `glai/helpers/text_preprocessor.py`, including the greedy word packing of `batch_input_simple`.
- **The path-string helpers** of `glai/helpers/file_handler.py`. `os.path.splitext` is a function parameter; the only fact assumed of it is root + ext == path.
- **Two pieces of `glai/back_end/llama_ai.py`:**
  - the newline clean-up of `try_fixing_format` with both flags false;
  - the token-limit bookkeeping of `LlamaAI`.

## Modules

- `Wrappers` (wrappers.dfy): `Option`, `Result`, `Outcome`, and the Python exception kinds as `Error`.
- `Strings` (strings.dfy): Python's `str.find`, `split`, `join`, `replace` and `endswith` on `seq<char>`, with the split/join round trip.
- `JsonValues` (json_values.dfy): the values a persisted history record holds.
- `OrderedDict` (ordered_dict.dfy): a Python dict with int keys, kept as its items in insertion order.
  - `Put` is `d[k] = v`: an existing key keeps its place, a new key goes last.
  - `Get` is `d[k]`, with KeyError when there is no key.
- `Messages` (messages.dfy): `AIMessage`, `AIMessages`, tag parsing, `LoadedMessages` and the record round trips.
- `Scenarios` (scenarios.dfy): call sequences on the history, including the one `easy_ai.generate` makes, with the prompt each one yields.
- `TextPreprocessor` (text_preprocessor.dfy), `FileHandler` (file_handler.dfy), `LlamaAi` (llama_ai.dfy).

## Behaviour of the code worth knowing

- **Render order.** `text()` joins the dict values in insertion order. `_insert_message` rebuilds the dict and stores the inserted id last.
  - So a system message set on a non-empty history gets id 0 but renders last.
  - A second `set_system_message` adds a second entry.
  - `Scenarios.SystemMessageAfterUserTurn` shows this: the ids are [2, 0] and the user turn renders first.
- **Ids after reset.** `reset_messages` sets the generator to 0, so the ids start again at 1.
- **The input-limit guard.** `_adjust_max_input_tokens` raises only when the new input limit is *below* `max_tokens`. Equal is accepted, although the message says "greater".
- **`to_dict` on the dict-backed history.** It iterates `self.messages` directly, which yields the int keys. On a non-empty dict the `.to_dict()` call on an int fails.
  - The model returns AttributeError in that case.
  - The `to_dict`/`from_dict` round trip is stated for the list-backed form (`LoadedMessages`) only.
- **Tags are constant fields.** No method of the dict-backed history reassigns a tag after construction, so the `AIMessages` tags are `const`. `from_dict` does reassign tags, and it does so on the separate `LoadedMessages` value.

## Model

| member | source | states |
|---|---|---|
| Messages.TextParts | glai/back_end/messages.py:20-21 | A message renders as its open tag, then its content, then its close tag: the length is the sum and each slice is the corresponding field |
| Messages.EditedProperties | glai/back_end/messages.py:26-37 | An edit always replaces the content and replaces each tag only when a new one is given; of two edits in a row, the second decides every field it gives |
| Messages.AIMessage.constructor | glai/back_end/messages.py:15-18 | A new message holds exactly the given content and tags |
| Messages.AIMessage.Edit | glai/back_end/messages.py:26-37 | The object's fields afterwards are its old fields edited: new content, and a tag replaced only when its argument is not None |
| Messages.Message.ToDict | glai/back_end/messages.py:57-68 | The message dict has exactly the keys content, tag_open and tag_close, and reading it back gives the same message |
| Messages.Message.FromDict | glai/back_end/messages.py:70-81 | Succeeds exactly when the three keys are present with string values and yields those fields; a missing key is KeyError and a non-string value is TypeError |
| Messages.AIMessage.Text | glai/back_end/messages.py:20-24 | A message renders as its open tag, then its content, then its close tag: the length is the sum of the three and each slice is the corresponding field |
| Messages.AIMessage.GetTags | glai/back_end/messages.py:48-55 | The pair is the open and close tag, which begin and end the rendering |
| Messages.AIMessage.ToDict | glai/back_end/messages.py:57-68 | The message dict has exactly the keys content, tag_open and tag_close, and reading it back gives the object's current value |
| Messages.AIMessage.FromDict | glai/back_end/messages.py:70-81 | A new object holding the fields the message dict describes, or the same error as the value-level reading |
| Messages.MessageDictRoundTrip | glai/back_end/messages.py:57-81 | A message dict of the shape `to_dict` writes reads back and converts to exactly itself |
| Messages.AfterEditTouchesOnlyTarget | glai/back_end/messages.py:371-384 | When no other entry holds the edited object, the edit changes the targeted entry and leaves every other entry as it was |
| Messages.NormaliseTags | glai/back_end/messages.py:106-116 | A dict tag argument yields its open and close entries, and ValueError when one is missing; a sequence yields its first two elements and IndexError when it is shorter; any other argument is TypeError |
| Messages.ParseTagConfig | glai/back_end/messages.py:105-146 | Succeeds exactly when the user, AI and (if given) system arguments normalise; the tags are the normalised pairs; no system argument means no system pair; the first malformed argument, in the order user, AI, system, decides the error |
| Messages.AIMessages.constructor | glai/back_end/messages.py:105-146 | The new history is empty with generator 0 and keeps the id invariant; its user, AI and system tags are the configured ones, and it has system tags exactly when a system pair was configured |
| Messages.AIMessages.Create | glai/back_end/messages.py:105-146 | The constructor entry point, whose tag arguments default to ("[INST]", "[/INST]"), ("", "") and None: raises the tag-parsing error or returns a fresh, valid, empty history whose user, AI and system tags are the parsed pairs, with system tags exactly when a system argument was given |
| Messages.AIMessages.UserTags | glai/back_end/messages.py:148-155 | The user pair is the user_tag_open and user_tag_close the history's record holds |
| Messages.AIMessages.AiTags | glai/back_end/messages.py:157-164 | The AI pair is the ai_tag_open and ai_tag_close the history's record holds |
| Messages.AIMessages.SystemTags | glai/back_end/messages.py:166-176 | The system pair is returned exactly when both system tags are set, and it holds those two tags |
| Messages.WrapInUserTags | glai/back_end/messages.py:189-190 | Each string becomes a message in the user tags, in order and with the same count; TypeError when the user tags are not strings |
| Messages.MessagesFromDicts | glai/back_end/messages.py:191-192 | Succeeds exactly when every message dict reads, giving each message in order; on failure the error is that of some failing dict |
| Messages.LoadMessages | glai/back_end/messages.py:178-196 | None leaves the history unchanged; an empty list gives no messages; a string gives one user message; a non-empty list of strings gives one user message per string, in order; a list of dicts gives the messages they describe; a list mixing kinds, a boolean, a number or a dict is TypeError; apart from a failing message dict, every failure is TypeError |
| Messages.AIMessages.ToDict | glai/back_end/messages.py:198-213 | Fails with AttributeError exactly when the dict-backed history is not empty; otherwise gives a record with the seven keys and an empty message list, which `from_dict` accepts |
| Messages.LoadedMessages.ToDict | glai/back_end/messages.py:198-213 | The record has exactly the seven keys, and its message list has one entry per message |
| Messages.LoadedMessages.FromDict | glai/back_end/messages.py:215-234 | KeyError when one of the five required keys is missing; otherwise succeeds exactly when `load_messages` does, copies the four tag values, and takes the system tags from the record or None when absent |
| Messages.FromDictOfToDict | glai/back_end/messages.py:198-234 | Converting a loaded history to its record and reading it back gives the same history |
| Messages.ToDictOfFromDict | glai/back_end/messages.py:198-234 | A record with exactly the seven keys and well-formed message dicts reads back and converts to exactly the same record |
| Messages.AIMessages.GenerateMessageId | glai/back_end/messages.py:236-246 | The generator rises by exactly one and the returned id is its new value |
| Messages.IdsValidAppend | glai/back_end/messages.py:236-264 | The next generated id is absent, and storing under it keeps the id invariant and makes it the message `get_last_message` finds |
| Messages.AIMessages.AddMessage | glai/back_end/messages.py:248-264 | The generator rises by one; the message is stored under that id, which was absent, after every existing entry, which are unchanged; the invariant is kept; the stored message is returned and is the last message; a string becomes a fresh message in the given tags; the text gains exactly the new rendering at the end |
| Messages.AIMessages.Store | glai/back_end/messages.py:263-264 | The given object is stored under the next id after every existing entry and is read back as the result and as the last message; the invariant is kept and the text gains its rendering |
| Messages.AIMessages.InsertMessage | glai/back_end/messages.py:266-286 | Every id at or above the given one moves up by one, with order and objects kept, and the message is stored under the given id last in iteration order; ids stay distinct; the generator rises by one only on a non-empty history; the text gains the message's rendering at the end |
| Messages.IdsValidInsertFirst | glai/back_end/messages.py:266-286 | Inserting under id 0 keeps the id invariant, with the generator raised only on a non-empty history |
| Messages.AIMessages.AddUserMessage | glai/back_end/messages.py:288-300 | As `add_message` with the user tags: next id, appended last, invariant kept, returned as the last message, text extended by its rendering |
| Messages.AIMessages.AddAiMessage | glai/back_end/messages.py:302-314 | As `add_message` with the AI tags: next id, appended last, invariant kept, returned as the last message, text extended by its rendering |
| Messages.AIMessages.SetSystemMessage | glai/back_end/messages.py:316-333 | Without system tags nothing changes; with them every id moves up by one and the message is stored under id 0 as the newest entry; the generator rises by one only on a non-empty history; the text gains the system rendering at the end; a string becomes a fresh message in the system tags |
| Messages.AIMessages.InsertSystemMessage | glai/back_end/messages.py:333 | `_insert_message(message, 0)` on a valid history: the shifted entries and then the message under id 0, the invariant kept, the generator rule, the text extended |
| Messages.AIMessages.Text | glai/back_end/messages.py:339-346 | An empty history renders as the empty string; otherwise the rendering begins with the entry stored first, in insertion order |
| Messages.RenderCons | glai/back_end/messages.py:340 | Joining the renderings of a non-empty list gives the first rendering followed by the join of the rest |
| Messages.AIMessages.ResetMessages | glai/back_end/messages.py:335-337 | The history is empty with generator 0, the invariant holds and the text is empty |
| Messages.AIMessages.GetLastMessage | glai/back_end/messages.py:348-355 | KeyError exactly when no entry has the generator's id, which on a valid history is exactly when it is empty; otherwise the entry under that id, which is at least every id present |
| Messages.AIMessages.EditLastMessage | glai/back_end/messages.py:357-369 | Fails with KeyError and no change exactly when there is no last message, which on a valid history means empty; otherwise the last message object is edited, visible in every entry that holds it and nowhere else |
| Messages.AIMessages.EditMessage | glai/back_end/messages.py:371-384 | Fails with KeyError and no change exactly when the id is absent; otherwise the object under that id is edited, visible in every entry that holds it and nowhere else |
| Messages.AIMessages.EditSystemMessage | glai/back_end/messages.py:386-394 | ValueError without system tags; otherwise KeyError when id 0 is absent; when the message under id 0 carries both system tags its content is edited in place; otherwise a fresh system message is inserted under id 0 with every id shifted; the invariant is kept and a failure changes nothing |
| Messages.AIMessages.HasSystemTags | glai/back_end/messages.py:396-403 | True exactly when both system tags are set, and then the history's record holds them |
| Messages.AIMessages.CreateSingleMessage | glai/back_end/messages.py:430-443 | A fresh message with the given content and tags, which default to empty |
| Scenarios.TwoTurns | glai/ai/easy_ai.py:310-331 | After a reset, a user turn and an AI turn get ids 1 and 2, the AI turn is the last message, and the prompt is the user rendering followed by the AI rendering |
| Scenarios.FirstTurn | glai/ai/easy_ai.py:310-316 | After a reset, a user turn takes id 1, the generator is 1, and the prompt is that turn's rendering alone |
| Scenarios.SecondTurn | glai/ai/easy_ai.py:331 | An AI turn after that first turn takes id 2, after it, becomes the last message, and extends the prompt by its rendering |
| Scenarios.UserThenAi | glai/ai/easy_ai.py:316-331 | Editing the last turn of a two-turn prompt re-renders only the AI turn |
| Scenarios.RenderEdit | glai/back_end/messages.py:357-369 | With two distinct message objects, editing the second one changes only the second rendering |
| Scenarios.SystemMessageUnsupported | glai/back_end/messages.py:328-329 | Without system tags, `set_system_message` leaves the prompt as it was |
| Scenarios.SystemMessageAfterUserTurn | glai/back_end/messages.py:278-286 | A system message set after one user turn takes id 0 and moves the user turn to id 2, yet renders after it |
| Scenarios.OneShotPrompt | glai/ai/easy_ai.py:310-316 | The one-shot prompt is the system rendering then the user rendering, under ids 0 and 1, when the model has system tags and a system message is given; otherwise the user rendering alone, under id 1 |
| Scenarios.SystemFirst | glai/ai/easy_ai.py:310-313 | A system message set on an empty history takes id 0, is the only entry and is the whole prompt, and the generator stays at 0 |
| Strings.JoinSplit | glai/helpers/text_preprocessor.py:21-34 | Splitting a text on a non-empty separator and joining the pieces with it gives the text back |
| Strings.SplitPiecesAvoidSep | glai/helpers/text_preprocessor.py:21-34 | No piece of a split contains the separator |
| Strings.IndexOf | glai/back_end/llama_ai.py:57-59 | The first position where the substring occurs, or none when it never occurs |
| TextPreprocessor.Chunks | glai/helpers/text_preprocessor.py:11 | The slices taken every k items concatenate back to the input; every slice but the last has exactly k items, the last has between 1 and k, and there are none only for an empty input |
| TextPreprocessor.ChunksCount | glai/helpers/text_preprocessor.py:11 | There are ceil(n / k) slices of n items |
| TextPreprocessor.SplitByLetters | glai/helpers/text_preprocessor.py:7-12 | A zero size is ValueError and a negative size gives no batches; otherwise the batches concatenate to the text, every batch but the last has exactly the given size, the last is non-empty and no larger, and there are none only for an empty text |
| TextPreprocessor.WordBatches | glai/helpers/text_preprocessor.py:16-18 | The batches joined with " " give the text, and there are ceil(w / k) of them for w " "-separated pieces |
| TextPreprocessor.WordBatchesOfOne | glai/helpers/text_preprocessor.py:43 | With one word per batch, the batches are the " "-separated pieces themselves |
| TextPreprocessor.SplitByWords | glai/helpers/text_preprocessor.py:14-19 | A zero size is ValueError and a negative size gives no batches; otherwise the batches joined with " " give the text and there are ceil(w / k) of them |
| TextPreprocessor.SplitByLines | glai/helpers/text_preprocessor.py:21-24 | The lines joined with "\n" give the text, and no line contains "\n" |
| TextPreprocessor.SplitByDoubleLines | glai/helpers/text_preprocessor.py:26-29 | The pieces joined with "\n\n" give the text, and no piece contains "\n\n" |
| TextPreprocessor.SplitBySentences | glai/helpers/text_preprocessor.py:31-34 | The sentences joined with "." give the text, and no sentence contains "." |
| TextPreprocessor.PackStateFlatten | glai/helpers/text_preprocessor.py:47-53 | At every step of the packing loop, the closed groups and then the current group are exactly the words seen so far, and the current group is non-empty once a word has been seen |
| TextPreprocessor.PackStateGreedy | glai/helpers/text_preprocessor.py:47-53 | At every step, each word was added to a group only when the predicate accepted the group joined with " ", then " ", then the word; each later group starts with a word the predicate rejected for the group before it |
| TextPreprocessor.AppendWordKeepsGreedy | glai/helpers/text_preprocessor.py:49-50 | Appending an accepted word to the current group keeps both packing properties |
| TextPreprocessor.StartGroupKeepsGreedy | glai/helpers/text_preprocessor.py:51-53 | Closing the group and starting a new one with a rejected word keeps both packing properties |
| TextPreprocessor.FirstGroup | glai/helpers/text_preprocessor.py:47-53 | The first group is empty exactly when the predicate rejects " " followed by the first word, which yields a leading "" batch |
| TextPreprocessor.PackGroupsProperties | glai/helpers/text_preprocessor.py:45-56 | The final groups flattened in order are the words; there is at least one group when there is a word; the groups are the greedy packing; the first is empty exactly when the first word was rejected |
| TextPreprocessor.BatchInputSimple | glai/helpers/text_preprocessor.py:37-58 | Exactly the text when the predicate accepts it whole; otherwise the greedy packing of its " "-separated words, each group joined with " ", and at least one batch |
| TextPreprocessor.BatchesKeepWords | glai/helpers/text_preprocessor.py:43-58 | Outside the one-batch case, the word groups flattened in order are exactly the " "-separated pieces of the text: no word is lost, duplicated or moved |
| FileHandler.Dotted | glai/helpers/file_handler.py:217-220 | An extension containing "." is kept, any other gets "." prefixed; the result always contains "." |
| FileHandler.GetExtension | glai/helpers/file_handler.py:184-199 | The splitext extension when it contains ".", and None otherwise |
| FileHandler.RemoveExtension | glai/helpers/file_handler.py:225-238 | The path itself when it has no extension, and otherwise the splitext root |
| FileHandler.RemoveThenRestore | glai/helpers/file_handler.py:225-238 | When the path has an extension, the root followed by the extension is the path, and the path ends with its extension |
| FileHandler.AddExtensionIfNotExists | glai/helpers/file_handler.py:256-274 | The path unchanged when it has an extension; otherwise the path followed by the dotted extension, which therefore ends with the extension |
| FileHandler.ChangeExtension | glai/helpers/file_handler.py:279-292 | The path without its extension followed by the dotted new extension, so the result ends with the new extension |
| FileHandler.IsFileFormat | glai/helpers/file_handler.py:213-223 | A lone string is a one-entry list; true exactly when the path ends with some dotted entry; the default None is TypeError |
| FileHandler.EndsWithAny | glai/helpers/file_handler.py:216-223 | The loop returns true exactly when the path ends with some dotted entry |
| FileHandler.IsFileImage | glai/helpers/file_handler.py:201-211 | A caller's list is rewritten in place as each entry dotted, with the same length; the result is true exactly when the path has an extension and it is in that list, or in the default list when none is given |
| LlamaAi.FlattenNewlines | glai/back_end/llama_ai.py:62-64 | The result holds no "\n", and a text without "\n" is unchanged |
| LlamaAi.TryFixingFormat | glai/back_end/llama_ai.py:44-72 | With both flags false, the result holds no "\n", and a text without "\n" comes back unchanged |
| LlamaAi.CollapseBlankLines | glai/back_end/llama_ai.py:57-61 | A text without "\n\n" is unchanged; otherwise the result is the text after the first "\n\n", which does not occur before it, with every further "\n\n" replaced by one space |
| LlamaAi.TryFixingFormatDropsLeadingPiece | glai/back_end/llama_ai.py:57-61 | On a text with a blank line, the piece before the first "\n\n" is dropped, each later "\n\n" becomes one space, and the newline clean-up then applies to the rest |
| LlamaAi.LlamaAI.constructor | glai/back_end/llama_ai.py:6-16 | The session holds the given path and limits and is loaded |
| LlamaAi.LlamaAI.Load | glai/back_end/llama_ai.py:35-42 | The session is marked loaded, with path and limits unchanged |
| LlamaAi.LlamaAI.AdjustMaxTokens | glai/back_end/llama_ai.py:82-84 | The new `max_tokens` is stored and the session is marked not loaded; nothing else changes |
| LlamaAi.LlamaAI.AdjustMaxInputTokens | glai/back_end/llama_ai.py:86-89 | Raises exactly when the new input limit is below `max_tokens`, leaving every field unchanged; otherwise stores it |
| LlamaAi.LlamaAI.AdjustTokens | glai/back_end/llama_ai.py:91-104 | `max_tokens` is always updated first, so the input limit is checked against the new value; on failure the old input limit stays and the session is left unloaded; on success the new input limit is stored and the session is reloaded |

## Left out

- Printing: the warnings of `set_system_message`, `edit_system_message`, `batch_input_simple` and `try_fixing_format` are not part of the model.
- `LlamaAI.load`: building the native `Llama` model and tokenizer is a foreign call. The model only records the loaded flag.
- `tokenize`, `untokenize`, `count_tokens`, `infer` and `_text_from_inference_obj` of `LlamaAI` wrap the native runtime. `LlamaAI.from_dict` reads a settings dict and calls the constructor and `load`. All are left out.
- The `only_letters` and `rem_list_formatting` paths of `try_fixing_format` are left out, and so are `remove_non_letters` and `remove_list_formatting`. They depend on Python regular expressions with Unicode whitespace.
- `compare_strings` is left out: it is floating-point similarity from `difflib`.
- The file-system functions of `file_handler.py` are left out: existence checks, directory creation, reading and writing, listing, `generate_next_file_name_path`, removing, renaming and copying. So are the `os.path` pass-throughs `join_paths`, `get_directory` and `get_basename`.
- `AIMessages.save_json` and `from_json` are left out: they do file I/O through a helper module that is not part of this model.
- The orchestration in `easy_ai.py` and `auto_ai.py` is left out: the model database, downloads and inference. Only their call sequences on the history appear, in `Scenarios`.
- Messages.LoadMessages: arguments that are an `AIMessages`, an `AIMessage` or a list of `AIMessage` objects are not modelled. A persisted record cannot hold them.
- Messages.WrapInUserTags: user tags that are not strings give TypeError in the model, because a message holds string tags only. Python would store whatever values the record held.
- Messages.LoadMessages: inherits that TypeError from `WrapInUserTags`, and gives the same TypeError for a single string message under non-string user tags.
- Messages.Message.FromDict: a message dict with non-string values gives TypeError in the model. Python would store the values as they are.
- Messages.NormaliseTags: a set argument falls under `TagOther` (TypeError). Python raises TypeError for it as well, but when indexing rather than in the type test.
- Messages.NormaliseTags: tag values are strings only. Numbers or None as tag values are not modelled.
- Operations on the list-backed form other than `to_dict` are not modelled. After `from_dict` the generator is 0 and `messages` is a list, so in Python:
  - `add_message` assigns to list position 1: it overwrites that item when the list has two or more items and raises IndexError otherwise;
  - `get_last_message` returns list item 0, and raises IndexError on an empty list; `edit_message` edits by list position;
  - `text()` (through `.values()`) and `_insert_message` (through `.items()`) raise AttributeError.
- Messages.AIMessages.ToDict: the AttributeError for a non-empty dict-backed history stands for the failure of calling `.to_dict()` on an int key.
- Messages.AIMessages.InsertMessage: requires distinct ids. Python's loop does not need that, but every history the model builds has them.
- Integers are unbounded, as Python's are.
