# Ontology enrichment core, in Dafny

This project models the deterministic core of an ontology-enrichment tool.
The tool splits a text into token-bounded chunks and asks a language model to
extract facts (individuals, relations, data values) from each chunk. It keeps
the facts that enough of the model's completions agree on, and writes them
into an OWL ontology. The model covers four parts:

- **Chunking, extraction, normalisation and voting** (`src/text_processor.py`):
  - modules `Chunker`, `TextProcessor`, `JsonAdapter`, `Voting`,
    `ChatGptClient`, `JsonValue` and `Errors`;
  - `split_into_sentences` is a scan for the leftmost separator, taking the
    first matching alternative in list order;
  - `split_text_into_chunks` is a method with a loop, proved against the
    function `Chunks`;
  - `extract_json` is the greedy `{...}` span;
  - `map_json` and its three helpers are methods that fill dictionaries of
    sets, proved against `Normalize`, the adapter with the error path of
    `map_json` corrected (see ## Findings);
  - `add_choice_to_counter` and `make_consistent` are methods over
    name → Counter maps, proved against `AddChoice` and `Consensus`;
  - `process_chunk` after the response arrives is the fold `RunAll`, with
    the callbacks it triggers kept as an event list.
- **Prompt builder** (`src/prompt_generator.py`, module `PromptGenerator`):
  - the ontology is a value made of classes (a name, comments, ancestor
    names) and properties (a name, comments, domain, range);
  - each Python loop is a method proved against a function.
- **Fact writer** (`src/repository/ontology_owlready2_repository.py`, module
  `OntologyRepository`):
  - the class `Repository` holds the registry of one write (`individuals` and
    its insertion order), the callbacks triggered, and a save counter;
  - every method is proved against `Run`, a function that interprets the
    write as a list of primitive steps (`Op`);
  - the properties are proved about `Run`.
- **State/callback registry** (`src/gui/state_manager.py`, module `GuiState`):
  - the class `StateManager` holds the two dictionaries, plus a log of the
    callback calls made through it;
  - its methods are proved against the functions over `Registry`.

Tokenisation (`count_tokens`) is a function parameter
`count: string -> nat`. `json.loads` is a parameter `parse` that returns a
JSON object or `None` for a decode error. Type validation of a data value is a
parameter `accepts`. The order in which Python iterates a dictionary or a set is
part of the input: each dictionary is given as a sequence of (name, facts)
pairs, and each set the writer iterates as a sequence.

Where the prose description of the tool and the code disagree, the model
follows the code:

- A completion with no `{...}` span raises `JsonNotFountError`, which no
  handler catches, so the whole chunk fails (`MissingJsonEscapes`).
- The chunk result is `None` only when no counted completion filed any
  entity. A threshold that discards every fact still returns the three empty
  dictionaries, and then the writer still saves.
- A trailing fragment with no separator is dropped from the sentences.
- An over-budget text with no separator therefore yields no chunk at all.
- An empty text within the budget is returned as the single chunk `[""]`.

## Model

| member | source | states |
|---|---|---|
| ChatGptClient.AvailableTokenCount | src/text_processor.py:86 | the budget is at most the model limit minus 5; a text's count is within it iff instruction, system message, text and the 5-token overhead together fit the model limit |
| ChatGptClient.FullPrompt | src/text_processor.py:91 | the composed prompt is the instruction, one newline, then the text, position by position |
| ChatGptClient.FullPromptDeterminesText | src/text_processor.py:91 | two texts give the same composed prompt iff they are equal |
| ChatGptClient.FittingTextIsOneChunk | src/text_processor.py:185-196 | a text that fits the model limit with instruction, system message and overhead is returned as the single chunk `[text]`; one that does not fit and has no separator gives no chunk |
| JsonValue.Index | src/text_processor.py:54-55 | `j[i]` succeeds exactly on a list or string index in range, and a list yields its element |
| JsonValue.Iterate | src/text_processor.py:53 | iteration succeeds exactly on lists and strings, visiting one element per item or character |
| Chunker.MatchAt | src/text_processor.py:190-191 | the separator matched at a position is one of the separators and a prefix of the rest; none matches iff no separator is a prefix |
| Chunker.MatchAtIsFirst | src/text_processor.py:190-191 | the alternation picks the first separator in list order that matches, not the longest |
| Chunker.SentencesCoverText | src/text_processor.py:189-192 | the sentences concatenate to a prefix of the text; what is left has no separator; each sentence is a separator-free span ended by exactly one separator |
| Chunker.NoSentencesIffNoSeparator | src/text_processor.py:189-192 | there are no sentences iff the text contains no separator |
| Chunker.SentencesAreNonEmpty | src/text_processor.py:192 | no sentence is empty |
| Chunker.Overlap | src/text_processor.py:209 | a positive k keeps the last min(k, n) sentences of the current chunk; k = 0 keeps none |
| Chunker.Chunks | src/text_processor.py:194-217 | a text within the budget is its own single chunk |
| Chunker.SplitTextIntoChunks | src/text_processor.py:194-217 | the loop returns exactly `Chunks` of the text |
| Chunker.PackSentences | src/text_processor.py:199-216 | the greedy packing loop returns the joined sentence groups of `Groups` |
| Chunker.ZeroOverlapKeepsEverySentence | src/text_processor.py:203-216 | with no overlap, the chunks' sentences are exactly the input sentences in order, and the chunks concatenate to the sentences' concatenation |
| Chunker.ZeroOverlapChunksJoinToText | src/text_processor.py:189-217 | with no overlap, an over-budget text's chunks concatenate to a prefix of the text, after which no separator occurs |
| Chunker.NoSeparatorNoChunks | src/text_processor.py:189-217 | an over-budget text with no separator produces zero chunks |
| Chunker.ZeroOverlapChunksFitBudget | src/text_processor.py:203-216 | with no overlap, every chunk's summed sentence count is within the budget, unless the chunk is a single sentence |
| Chunker.OverlapSeedsNextChunk | src/text_processor.py:205-213 | no chunk is empty, and every chunk after the first begins with the overlap taken from the chunk before it |
| Chunker.NoEmptyChunk | src/text_processor.py:194-217 | no emitted chunk is the empty string unless the text itself is empty |
| Chunker.GroupsHoldSentences | src/text_processor.py:203-216 | every sentence of every chunk is one of the input sentences |
| Chunker.EverySentenceReachesAChunk | src/text_processor.py:203-216 | whatever the overlap, there are chunks iff there are sentences, and the first chunk followed by what each later chunk adds after its overlap seed is exactly the input sentences, each once, in order |
| Chunker.NewPartsRebuildText | src/text_processor.py:189-217 | whatever the overlap, the first chunk and the non-overlapping parts of the later ones concatenate to a prefix of the text, after which no separator occurs |
| TextProcessor.FindJsonSpan | src/text_processor.py:154-158 | a span exists iff some `{` comes before some `}`; it runs from the first `{` to the last `}` |
| TextProcessor.ObjectInProseIsFound | src/text_processor.py:153-158 | an object surrounded by prose with no `{` before and no `}` after is extracted exactly |
| TextProcessor.ExtractJson | src/text_processor.py:153-161 | the not-found error occurs iff there is no span; a decode error iff the span does not parse; otherwise the parsed span |
| TextProcessor.Classify | src/text_processor.py:135-148 | a completion is counted iff it extracts and maps; it aborts the chunk iff it has no span or the adapter raises something other than the structure error |
| TextProcessor.ProcessChunk | src/text_processor.py:134-150 | corrected (see ## Findings): the loop's result and triggered callbacks are those of `ChunkReport` with the corrected adapter `Normalize`; with the adapter as written a malformed payload aborts the chunk instead (`AsWrittenMalformedCompletionAbortsChunk`) |
| TextProcessor.EscapeIsFinal | src/text_processor.py:135-148 | once an exception escapes, later completions change nothing |
| TextProcessor.RunTalliesCountedCompletions | src/text_processor.py:134-148 | nothing escapes iff no completion aborts; then the counters are the tally of exactly the counted completions and the error events those of exactly the skipped ones, in order; an escaped error comes from an aborting completion |
| TextProcessor.TallyHasNoEntityIff | src/text_processor.py:177-183 | the entity counters are empty iff no counted completion filed any entity |
| TextProcessor.ChunkResultIsTheVote | src/text_processor.py:149-150 | when nothing aborts, the result is None iff no counted completion filed an entity; otherwise it is the vote over the counted completions and the response-tab event ends the event list |
| TextProcessor.CountedEntityGivesResult | src/text_processor.py:149-150 | one counted completion filing an entity is enough for a result |
| TextProcessor.EntityKeptIffEnoughCompletions | src/text_processor.py:163-183 | an entity is in the chunk result iff at least `threshold` (and at least one) of the counted completions filed it under its class |
| TextProcessor.DecodeErrorIsSkipped | src/text_processor.py:139-143 | a completion whose span does not parse is skipped with the decode message and the completion's text |
| TextProcessor.MissingJsonEscapes | src/text_processor.py:135-161 | one completion without a span makes the whole chunk fail |
| TextProcessor.AsWrittenMalformedCompletionAbortsChunk | src/text_processor.py:48-49 | with the adapter as written, one completion with a malformed payload makes the whole chunk fail |
| TextProcessor.MalformedCompletionIsSkipped | src/text_processor.py:144-148 | with the structure error raised properly, a malformed payload is only reported, with the structure message |
| TextProcessor.AsWrittenDemoEscapes | src/text_processor.py:48-49 | for one good and one malformed completion the code as written ends the chunk with a TypeError |
| TextProcessor.CorrectedDemoFindsTheEntity | src/text_processor.py:144-150 | corrected, the same two completions give a result from the good one |
| JsonAdapter.LabelTuples | src/text_processor.py:55 | the label tuples exist iff every label is iterable with hashable members; each tuple is that label's members |
| JsonAdapter.EntityOf | src/text_processor.py:54-57 | an entity is read iff `obj[0]` and `obj[1]` exist and are hashable and `obj[2]` iterates to labels that each iterate to hashable members; it carries `obj[0]` as its class, `obj[1]` as its id and those label tuples |
| JsonAdapter.RelationOf | src/text_processor.py:61-66 | a relation is read iff `obj_prop[0]` exists and is hashable, `obj_prop[1]` exists, and its first two members exist and are hashable; it carries the name and those two members |
| JsonAdapter.DataValueOf | src/text_processor.py:70-75 | a data value is read iff `data_prop[0]` exists and is hashable and `data_prop[1]` iterates to exactly two hashable members; it carries the name and those two members |
| JsonAdapter.Entries | src/text_processor.py:52-75 | a section is read iff every element is, each element giving its fact in order |
| JsonAdapter.Group | src/text_processor.py:52-75 | a name is a key iff some entry carries it, and its set is exactly the facts filed under it |
| JsonAdapter.GroupSnoc | src/text_processor.py:52-75 | one more entry creates that name's set or adds the fact to it |
| JsonAdapter.GroupIgnoresRepeatsAndOrder | src/text_processor.py:52-75 | two entry lists with the same members give the same grouping, so repeats collapse |
| JsonAdapter.Normalize | src/text_processor.py:37-49 | with `objects` absent or empty the result is the three empty dictionaries; otherwise relations and data values are mapped only when present and non-empty; any structural failure is the structure error, and it happens iff a present section fails to map |
| JsonAdapter.NormalizeAsWritten | src/text_processor.py:48-49 | the code as written fails on the same payloads, but with a TypeError in place of the structure error |
| JsonAdapter.MapSection | src/text_processor.py:52-75 | the shared loop builds exactly the section's grouping, or fails where Python would raise |
| JsonAdapter.MapObjects | src/text_processor.py:52-57 | `map_objects` builds the grouping of the entities |
| JsonAdapter.MapObjectProperties | src/text_processor.py:59-66 | `map_object_properties` builds the grouping of the relations |
| JsonAdapter.MapDataProperties | src/text_processor.py:68-75 | `map_data_properties` builds the grouping of the data values |
| JsonAdapter.MapJson | src/text_processor.py:36-49 | corrected (see ## Findings): `map_json` returns `Normalize` of the payload, a structural failure surfacing as the structure error; the code as written raises a TypeError there instead (`NormalizeAsWritten`) |
| Voting.Bump | src/text_processor.py:180-183 | counting a set of facts adds exactly one to each of them and leaves the others |
| Voting.AddGrouping | src/text_processor.py:178-183 | a name has a counter iff it had one or the grouping uses it; each counter is bumped by that name's facts |
| Voting.FoldCountsOccurrences | src/text_processor.py:177-183 | after counting, a fact's count is the number of groupings filing it under its name |
| Voting.FoldKeys | src/text_processor.py:180-181 | a name has a counter iff some grouping used it |
| Voting.FoldCounts | src/text_processor.py:177-183 | counts are occurrences, and names are the names used |
| Voting.TallySnoc | src/text_processor.py:177-183 | counting one more completion is one more `add_choice_to_counter` |
| Voting.Keep | src/text_processor.py:166-171 | a name is kept iff at least one of its facts reaches the threshold, and it keeps exactly those facts |
| Voting.KeptIffEnoughVotes | src/text_processor.py:163-183 | a fact survives iff at least `threshold` (and at least one) of the completions filed it |
| Voting.ThresholdAboveCompletionsKeepsNothing | src/text_processor.py:163-171 | a threshold above the number of completions keeps nothing |
| Voting.AddGroupingToCounts | src/text_processor.py:179-183 | the loop over names computes `AddGrouping` |
| Voting.AddChoiceToCounter | src/text_processor.py:176-183 | `add_choice_to_counter` adds one mapped completion to all three kinds of counter |
| Voting.KeepAtLeast | src/text_processor.py:166-171 | the nested loops compute `Keep` |
| Voting.MakeConsistent | src/text_processor.py:163-174 | `make_consistent` computes the vote over all three kinds |
| PromptGenerator.StripShape | src/prompt_generator.py:6 | a stripped string is the input minus whitespace at both ends; it is empty iff the input is all whitespace |
| PromptGenerator.AnnotationMeaning | src/prompt_generator.py:1-9 | ignored iff no comment starts with `!`; otherwise the extra text comes from the first such comment and is stripped and non-blank, or None |
| PromptGenerator.ProcessComments | src/prompt_generator.py:1-9 | the loop with its `break` returns the annotation of the comments |
| PromptGenerator.ClassIsSubclassOf | src/prompt_generator.py:11-15 | true iff some target is an ancestor of the class |
| PromptGenerator.KeptClassesAppend | src/prompt_generator.py:17-29 | the kept classes of a concatenation are the kept classes of each part, in order |
| PromptGenerator.GetClassList | src/prompt_generator.py:17-29 | it returns the non-ignored classes in ontology order, with descriptions aligned index by index |
| PromptGenerator.CollectDescendants | src/prompt_generator.py:45-51 | the loop keeps the kept classes that descend from the targets |
| PromptGenerator.DescendantsOfAppend | src/prompt_generator.py:45-51 | the descendants keep kept-class order across concatenation |
| PromptGenerator.RelationLineNeedsBothSides | src/prompt_generator.py:38-57 | a relation line implies an annotated property with non-empty domain and range class lists; with named classes, the line exists iff those hold |
| PromptGenerator.GetRelationList | src/prompt_generator.py:31-59 | the loop returns the relation lines of the properties, in order |
| PromptGenerator.DataPropertyLineNeedsDomainAndType | src/prompt_generator.py:67-82 | a data-property line implies an annotated property with non-empty domain classes and types; with named classes and types, the line exists iff those hold |
| PromptGenerator.GetDataPropertyList | src/prompt_generator.py:61-84 | the loop returns the data-property lines of the properties, in order |
| PromptGenerator.GeneratePrompt | src/prompt_generator.py:86-108 | the `+=` sequence builds exactly the prompt of the ontology |
| PromptGenerator.PromptFrame | src/prompt_generator.py:91-106 | every prompt begins with the class header and the joined descriptions, and ends with the `Important:` sentence |
| PromptGenerator.PromptSectionsIffLines | src/prompt_generator.py:96-105 | the relation section follows the class section iff there are relation lines; the data-property section follows iff there are data-property lines |
| OntologyRepository.RunStopsAtCrash | src/repository/ontology_owlready2_repository.py:30-98 | once an exception escapes, the rest of the write does nothing |
| OntologyRepository.LabelPass | src/repository/ontology_owlready2_repository.py:19-21 | labelling succeeds iff every label has two members, and then appends them in order as language-tagged labels |
| OntologyRepository.EntityCreated | src/repository/ontology_owlready2_repository.py:46-50 | creating an entity registers its id (overwriting any earlier record with that id) as an individual of the class carrying exactly its labels |
| OntologyRepository.CreateRegistersKnownClasses | src/repository/ontology_owlready2_repository.py:39-50 | after creation the registry holds exactly the earlier ids and the ids of entities of known classes |
| OntologyRepository.RelateOutcome | src/repository/ontology_owlready2_repository.py:61-75 | a pair with both ends registered is attached, with one counter event, or fails on an unknown property; otherwise it is skipped with one error event |
| OntologyRepository.RelationPass | src/repository/ontology_owlready2_repository.py:61-75 | a property's pairs fail iff the property is unknown and some pair resolves; otherwise each pair triggers exactly one event |
| OntologyRepository.UnknownPropertyRaisesOnResolvedPair | src/repository/ontology_owlready2_repository.py:55-74 | an unknown property is reported, not skipped, and fails exactly when some pair resolves |
| OntologyRepository.RelateFailureIsNone | src/repository/ontology_owlready2_repository.py:74 | the only failure of relating is indexing the None property |
| OntologyRepository.SetValueOutcome | src/repository/ontology_owlready2_repository.py:84-98 | a value for a registered subject that validates replaces the previous one, with one counter event; otherwise it is skipped with one error event |
| OntologyRepository.DataPass | src/repository/ontology_owlready2_repository.py:84-98 | setting values never fails and triggers exactly one event per pair |
| OntologyRepository.SaveClearsRegistry | src/repository/ontology_owlready2_repository.py:23-28 | saving counts one save, shows each registered individual in insertion order, reports the registry's size, and empties it |
| OntologyRepository.NoObjectsNoWrite | src/repository/ontology_owlready2_repository.py:30-31 | with `objects` None a write does nothing |
| OntologyRepository.CompletedWriteIsSaved | src/repository/ontology_owlready2_repository.py:30-37 | a write with objects that completes ends with an empty registry and the individuals-count event |
| OntologyRepository.ApplyKeepsWellFormed | src/repository/ontology_owlready2_repository.py:39-75 | each step keeps the registry well formed: the order lists each id once, and relations point at registered ids |
| OntologyRepository.RunKeepsWellFormed | src/repository/ontology_owlready2_repository.py:30-98 | any run of steps keeps the registry well formed |
| OntologyRepository.WritesKeepWellFormed | src/repository/ontology_owlready2_repository.py:23-50 | from a fresh repository, the registry stays well formed and saving shows every registered individual exactly once |
| OntologyRepository.Repository.constructor | src/repository/ontology_owlready2_repository.py:10-13 | a new repository has an empty registry |
| OntologyRepository.Repository.SetLabels | src/repository/ontology_owlready2_repository.py:19-21 | `set_labels` performs the label steps |
| OntologyRepository.Repository.CreateOfClass | src/repository/ontology_owlready2_repository.py:46-50 | the inner loop of `create_individuals` performs the creation steps of one class |
| OntologyRepository.Repository.CreateIndividuals | src/repository/ontology_owlready2_repository.py:39-50 | `create_individuals` performs the creation steps, skipping unknown classes |
| OntologyRepository.Repository.RelatePairs | src/repository/ontology_owlready2_repository.py:61-75 | the inner loop of `add_object_properties` performs the relation steps of one property |
| OntologyRepository.Repository.AddObjectProperties | src/repository/ontology_owlready2_repository.py:52-75 | `add_object_properties` performs the relation steps |
| OntologyRepository.Repository.SetValues | src/repository/ontology_owlready2_repository.py:84-98 | the inner loop of `add_data_properties` performs the value steps of one property |
| OntologyRepository.Repository.AddDataProperties | src/repository/ontology_owlready2_repository.py:77-98 | `add_data_properties` performs the value steps, skipping unknown properties |
| OntologyRepository.Repository.SaveOntology | src/repository/ontology_owlready2_repository.py:23-28 | `save_ontology` performs the save step |
| OntologyRepository.Repository.AddIndividuals | src/repository/ontology_owlready2_repository.py:30-37 | `add_individuals` performs the whole write: creation, then relations and values when present, then saving |
| GuiState.StateOf | src/gui/state_manager.py:16-17 | reading a state succeeds iff the name was set |
| GuiState.GetAfterSet | src/gui/state_manager.py:13-17 | getting a state just set returns the value |
| GuiState.GetUnsetFails | src/gui/state_manager.py:16-17 | getting a never-set state fails |
| GuiState.SetStateFrame | src/gui/state_manager.py:13-14 | setting one state leaves the other states, the callbacks and the call log unchanged |
| GuiState.RegisterReplaces | src/gui/state_manager.py:6-11 | registering again under a name replaces the callback: a trigger calls only the new one |
| GuiState.TriggerCallsOnce | src/gui/state_manager.py:9-11 | an unregistered name changes nothing; a registered one calls its current callback exactly once with the value, and changes nothing else |
| GuiState.ExecuteAppend | src/gui/state_manager.py:6-17 | running commands one after another is running their concatenation |
| GuiState.StateSurvives | src/gui/state_manager.py:13-17 | a state keeps its value through commands that do not set it |
| GuiState.SetThenGet | src/gui/state_manager.py:13-17 | `get_state(n)` after `set_state(n, v)` returns `v` whatever comes between, unless it sets `n` again |
| GuiState.ExecuteOnlyGrows | src/gui/state_manager.py:6-17 | no command removes anything: the log only grows, and names stay registered and set |
| GuiState.CallbackSurvives | src/gui/state_manager.py:6-11 | a registered callback stays the one triggered until the name is registered again |
| GuiState.StateManager.constructor | src/gui/state_manager.py:2-4 | a new manager is empty |
| GuiState.StateManager.RegisterCallback | src/gui/state_manager.py:6-7 | `register_callback` binds the name to the callback |
| GuiState.StateManager.TriggerCallback | src/gui/state_manager.py:9-11 | `trigger_callback` calls the bound callback once, or does nothing |
| GuiState.StateManager.SetState | src/gui/state_manager.py:13-14 | `set_state` binds the state |
| GuiState.StateManager.GetState | src/gui/state_manager.py:16-17 | `get_state` returns the state, or None iff the name was never set |

## Left out

- Network, asyncio and concurrency: the OpenAI request in `get_response` (only the composed prompt is modelled), the semaphore, task creation, and the worker pool that consumes the chunk results.
- `tiktoken`: token counting is an uninterpreted `count` parameter; the budget lemma about chunks needs `count("") == 0`.
- `json.loads`: an uninterpreted `parse` parameter that returns an object or a decode error; JSON numbers are integers, and floats are not modelled.
- The float `temperature`, the API key, the logger calls and the `print` in `make_consistent`: they do not affect any result.
- The test data and the `map_json` call that run at import (src/text_processor.py:219-222), and the commented-out legacy code.
- TextProcessor.Classify: the structure-error handler builds its message as `str + dict`, which Python would reject; the model reports an error event carrying the span text.
- Chunker.SplitIntoSentences: separators must be non-empty; Python's rules for empty matches in `re.split` are not modelled.
- JsonValue.Json: `JBool` and `JNum` are distinct values, whereas Python's `True == 1` and `False == 0` compare and hash equal; dictionary keys, set members, Counter keys and registry ids that differ only that way are one key in Python and two in the model (for example `["C", 1, []]` and `["C", true, []]` from two completions count as one fact twice in Python and as two facts once each here).
- JsonValue.Iterate: iterating a JSON object (which Python would do over its keys) counts as a structural failure.
- Dictionary and set iteration order: a dictionary the source iterates is given as a sequence of pairs, and each set of facts the writer iterates (`individuals_data`, `properties_data` at src/repository/ontology_owlready2_repository.py:46, 61, 84) as a sequence, in whatever order Python would produce.
- OntologyRepository: owlready2 is abstract: `onto.save` is a save counter, `locstr` a language-tagged label, type validation the `accepts` parameter, and `descript_individual` the individual's record rather than its rendered text.
- OntologyRepository: `getattr(onto, name)` looks a name up only in the set of its own kind (classes, object properties, data properties); reusing an individual that already exists in the ontology under the same name is not modelled, and each `Create` starts a blank record.
- OntologyRepository: when an exception escapes a write, the registry is not cleared; the model stops there, as the code does.
- GuiState: a callback is an uninterpreted value; calling it is recorded in the log, and what it does is not modelled.
- The UI windows, the text producer, configuration loading and the repository protocol are not part of this model; the exception classes are the variants of `Errors.Error`.

## Findings

| source | as written | input that shows it | evidently intended | confidence | as-written member | corrected member |
|---|---|---|---|---|---|---|
| src/text_processor.py:48-49 | the handler executes `raise WrongJsonStructureError` with no argument, but that class's constructor requires one (`__init__(self, json)`), so a TypeError escapes `map_json`; the `except WrongJsonStructureError` of `process_chunk` (lines 144-148) never runs, and one malformed completion aborts the whole chunk | two completions, `{good}` parsing to one well-formed entity and `{bad}` parsing to `{"objects": 1}` | the malformed completion is reported on the errors tab and skipped, and the other one is counted | not executed | JsonAdapter.NormalizeAsWritten, TextProcessor.AsWrittenMalformedCompletionAbortsChunk, TextProcessor.AsWrittenDemoEscapes | JsonAdapter.Normalize, TextProcessor.MalformedCompletionIsSkipped, TextProcessor.CorrectedDemoFindsTheEntity |
