# llmasp in Dafny

A model of the `LLMASP` pipeline of the llmasp repository. The pipeline translates a
user's natural-language text into facts of an answer-set program. It does this by
asking a language model one query per predicate, or one combined query. It then
assembles the program from the facts, the database and the knowledge base, and hands
it to an ASP solver. Finally it narrates the solver's answer set back in natural
language: one model call per predicate group, then one summary call.

Two revisions are modelled, each independently:

- the current class in `llmasp/llm/llmasp.py` (modules `Config`, `Queries`, `Facts`,
  `Grouping`, `Forward`, `Backward`, `Pipeline`);
- the older class in `llmasp/llm/LLMASP.py` (modules `Legacy`, `LegacyPipeline`). It
  shares `Grouping`, the fact scanner of `Facts` and the oracles.

Layout:

- `strings.dfy` (`Strings`): `re.sub` of a literal placeholder as `Sub`, `sep.join` as
  `Join`, `atom.split("(")[0]` as `AtomName`, and list flattening.
- `errors.dfy` (`Errors`): the exceptions as a `Failure` datatype. `ConfigError` and
  `LLMASPError` carry a cause. The re-raise `raise LLMASPError(f"...: {e}")` is `Wrap`.
- `config.dfy` (`Config`): the parsed configuration and behavior files,
  `_validate_config`, `__get_property` and `__init__`. This includes the fallback to
  an empty database.
- `queries.dfy` (`Queries`): `__create_queries` in both modes and
  `_create_query_messages`.
- `facts.dfy` (`Facts`): `re.findall(r"\b[a-zA-Z][\w_]*\([^)]*\)", s)`, and the older
  pattern with a trailing `\.`, as a left-to-right scanner over the text.
- `grouping.dfy` (`Grouping`): `group_by_fact`, as a function on sequences and as the
  loop that builds the insertion-ordered dict.
- `oracles.dfy` (`Oracles`): the language-model client and the solver as classes
  holding a call log. Each answer is a fixed function of the calls made so far and the
  current call; `None` stands for an exception.
- `forward.dfy` (`Forward`): `natural_to_asp`.
- `backward.dfy` (`Backward`): `asp_to_natural` and `_process_fact_group`.
- `pipeline.dfy` (`Pipeline`): `run`, plus the `LLMASP` class whose methods run the
  source's loops against the model's language-model and solver objects. Each method
  is proved equal to the function that specifies it.
- `legacy.dfy`, `legacy_pipeline.dfy`: the same for the older revision.

Every operation that talks to the language model returns an `Exchange`: the call log
after the operation, and the result or the exception raised. The lemmas state which
calls were made, in which order, with which messages, and what was returned.

Where the two parts of the source disagree, the model follows the code:

- The current `_process_fact_group` substitutes the misspelt placeholder
  `{intructions}` (llmasp.py line 288). `Backward.NarrationIgnoresInstructions` shows
  that a template written with `{instructions}` never receives the instructions.
- The current summary template receives the replies through `{responses}`. The older
  one substitutes the `summary` value for `{response}` inside the joined replies, not
  the other way round.
- In the older `__get_property`, an empty mapping makes `next(iter(x))` raise
  `StopIteration` inside `filter`. That ends the `list(...)` early, so the lookup
  only sees the entries before it.
- In the current `__get_property`, the same `StopIteration` inside the generator
  becomes a `RuntimeError`. `except Exception` re-raises it as `LLMASPError`
  (`MalformedProperty`).
- The older `natural_to_asp` with no queries fails with `UnboundLocalError` at
  `print(facts)`.

## Model

| member | source | states |
|---|---|---|
| Strings.Sub | llmasp/llm/llmasp.py:121-123 | replacing a placeholder with backslash-free text leaves backslash-free text backslash-free |
| Strings.SubAbsent | llmasp/llm/llmasp.py:121-123 | a substitution whose placeholder does not occur returns the text unchanged |
| Strings.SubWhole | llmasp/llm/llmasp.py:121-123 | a template that is exactly the placeholder becomes exactly the replacement |
| Strings.SubFirst | llmasp/llm/llmasp.py:121-123 | the text before the first occurrence of the placeholder is kept, that occurrence becomes the replacement, and the substitution continues on the rest |
| Strings.Join | llmasp/llm/llmasp.py:333 | joining nothing gives `""`, joining one part gives that part, and joining backslash-free parts stays backslash-free |
| Strings.AtomName | llmasp/llm/llmasp.py:98-100 | the predicate name is a prefix of the fact containing no `(`, and it stops exactly at the first `(` (or is the whole fact) |
| Strings.Flatten | llmasp/llm/llmasp.py:242 | every message of the flattened history belongs to one of the history's queries |
| Errors.Wrap | llmasp/llm/llmasp.py:144-146 | a re-raised error is always an `LLMASPError` and never a `ConfigError` |
| Config.ValidateConfig | llmasp/llm/llmasp.py:81-96 | validation passes exactly when the three config keys, both behavior sections and all their listed fields are present; every failure is a `ConfigError`, and a missing-keys error names exactly the absent config keys (never none) |
| Config.GetProperty | llmasp/llm/llmasp.py:156-186 | every lookup failure is an `LLMASPError` |
| Config.GetPropertyFirstMatch | llmasp/llm/llmasp.py:171-184 | the lookup succeeds exactly when some entry is the first match (by key, or by predicate name of the key when `is_fact`), and then returns that entry's first pair; it fails with `Property not found: key` exactly when every entry is non-empty and none matches |
| Config.Construct | llmasp/llm/llmasp.py:66-79 | construction succeeds exactly when both files load and the configuration validates, keeping both files; every failure is a `ConfigError` and so an `LLMASPError` (the case tests/test_llmasp.py:45-48 checks); the database is the loaded file's `database` value, and `""` when there is no path, the file cannot be loaded or it lacks the key |
| Config.MissingKnowledgeBaseRefused | llmasp/llm/llmasp.py:83-90 | a configuration without `knowledge_base` is refused with a missing-keys `ConfigError` naming it |
| Queries.NonMeta | llmasp/llm/llmasp.py:130 | the pairs kept are pairs of the input, none keyed `_` |
| Queries.PerPredicate | llmasp/llm/llmasp.py:136-141 | the per-predicate loop only ever fails with `IndexError` |
| Queries.PerPredicateSucceeds | llmasp/llm/llmasp.py:136-137 | the per-predicate loop succeeds exactly when no preprocessing entry is empty |
| Queries.PerPredicateQueries | llmasp/llm/llmasp.py:136-141 | with no empty entry, the loop yields one query per entry whose first key is not `_`, in config order, each built from that entry's value and key |
| Queries.SinglePass | llmasp/llm/llmasp.py:125-134 | single-pass mode fails (with `ValueError` from unpacking an empty `zip`) exactly when there is no non-`_` pair, and otherwise yields exactly one query |
| Queries.SinglePassCombinesPredicates | llmasp/llm/llmasp.py:126-133 | with one pair per entry, single-pass succeeds exactly when per-predicate mode would ask something; its one query has the instructions joined with `""` and the predicate names joined with `" "` |
| Queries.QueriesFor | llmasp/llm/llmasp.py:117-146 | every failure of query construction is re-raised as `Failed to create queries` |
| Queries.OneQueryPerPredicate | llmasp/llm/llmasp.py:119-154 | given a `_` entry and no empty entry, there is one query per non-`_` entry in config order, each exactly `[system init, system context, user mapping]`, where the mapping has `{input}` then `{instructions}` then `{atom}` replaced and the context has only `{context}` replaced by the `_` value |
| Queries.SinglePassOneQuery | llmasp/llm/llmasp.py:125-134 | single-pass construction that succeeds yields exactly one query, and only when some non-`_` pair exists |
| Queries.MissingContextRaises | llmasp/llm/llmasp.py:122 | without a `_` entry (every entry non-empty) both modes raise `Failed to create queries: Property not found: _` |
| Queries.InputExpanded | llmasp/llm/llmasp.py:121-141 | with the mapping `{input}`, every input becomes the query after its own `{instructions}` and `{atom}` are replaced, since `{input}` is replaced first |
| Queries.InputExpandedIn | llmasp/llm/llmasp.py:121-141 | for any mapping with exactly one `{input}`, the query is the mapping with the user's input in that place, after which the input's own `{instructions}` and `{atom}` are replaced together with the mapping's |
| Queries.InputSubstitutedFirst | llmasp/llm/llmasp.py:121 | `{input}` is replaced before `{instructions}` and `{atom}`: user text that spells `{atom}` is itself replaced |
| Facts.WordEnd | llmasp/llm/llmasp.py:328 | the greedy `[\w_]*` stops at the first non-word character (or the end) |
| Facts.CloseParen | llmasp/llm/llmasp.py:328 | `[^)]*\)` ends at the first `)` after the opening parenthesis, and fails when there is none |
| Facts.AtomEnd | llmasp/llm/llmasp.py:328 | a match at the start of the text is non-empty and within the text |
| Facts.MatchHere | llmasp/llm/llmasp.py:328 | a match that starts here (at a word boundary) is non-empty and within the text |
| Facts.AppendDot | llmasp/llm/llmasp.py:329 | every extracted atom gets exactly one `.` appended, and the order and count are kept |
| Facts.MatchShape | llmasp/llm/llmasp.py:328 | every match is a letter, word characters, `(`, characters other than `)`, and `)` (with `.` for the older pattern) |
| Facts.ScanShape | llmasp/llm/llmasp.py:328 | every match `re.findall` returns has the pattern's shape |
| Facts.ExtractShape | llmasp/llm/llmasp.py:328-329 | every fact taken from a response is an atom of that shape followed by `.` |
| Facts.DottedEnd | llmasp/llm/LLMASP.py:80 | a match of the older pattern ends in `).` |
| Facts.ScanAtom | llmasp/llm/llmasp.py:328 | an atom followed by `.` at the start of the text is matched whole, and the scan continues after it |
| Facts.ScanJoined | llmasp/llm/llmasp.py:328-331 | extracting from atoms written one per line with `.` recovers exactly those atoms (with their `.` for the older pattern), in order |
| Facts.ExtractIdempotent | llmasp/llm/llmasp.py:328-331 | extraction is stable: extracting again from the facts joined with newlines gives the same list |
| Facts.FindAllDottedIdempotent | llmasp/llm/LLMASP.py:80-81 | the older extraction is stable in the same way |
| Facts.ExtractJoined | llmasp/llm/llmasp.py:328-333 | any list of extracted facts, joined with newlines, extracts back to itself |
| Facts.SingleFactResponse | llmasp/llm/llmasp.py:328-329 | the response `item(apples).` yields exactly the fact `item(apples).` |
| Facts.ScanSkipsProse | llmasp/llm/llmasp.py:328 | text in which no `(` directly follows a word character, and which ends in a non-word character, holds no match, and the scan after it starts afresh at a word boundary |
| Facts.FindAfterProse | llmasp/llm/llmasp.py:328 | after such a preamble, an atom followed by `.` is the first match, and the matches after it are those of the rest of the text |
| Facts.AppendDotCons | llmasp/llm/llmasp.py:329 | appending dots keeps the first atom first, followed by the rest with their dots |
| Facts.ExtractAfterProse | llmasp/llm/llmasp.py:328-329 | a response made of a preamble, an atom, `.` and more text yields that atom with its `.`, followed by the facts of the rest |
| Facts.PreambleResponse | llmasp/llm/llmasp.py:328-329 | the response `Sure: item(apples).` yields exactly the fact `item(apples).` |
| Facts.ParentheticalResponse | llmasp/llm/llmasp.py:328-329 | the response `I think (maybe) item(x).` yields exactly the fact `item(x).` |
| Grouping.Grouped | llmasp/llm/llmasp.py:232-238 | the dict's key order lists every key exactly once and nothing else |
| Grouping.SelectHasName | llmasp/llm/llmasp.py:232-238 | every fact selected for a name has that predicate name and comes from the input |
| Grouping.GroupedSelects | llmasp/llm/llmasp.py:232-238 | each group is exactly the facts of its name in input order; every fact's name is a key; every group is non-empty; a name that is not a key selects nothing |
| Grouping.GroupedMembers | llmasp/llm/llmasp.py:232-238 | for every name, its group (if any) is exactly the facts with that name in input order and is non-empty, and a name without a group selects no fact |
| Grouping.GroupedCovers | llmasp/llm/llmasp.py:235-237 | every fact's predicate name is a key of the dict |
| Grouping.ExactlyOneGroup | llmasp/llm/llmasp.py:232-238 | every fact lands in the group of its own predicate name, and every member of a group has the group's name and comes from the input |
| Grouping.SelectContains | llmasp/llm/llmasp.py:235-237 | each fact is among the facts selected for its name |
| Grouping.FirstOccurrenceOrder | llmasp/llm/llmasp.py:232-238 | groups are ordered by first occurrence: any fact of a later group is preceded by a fact of each earlier group |
| Grouping.EarlierGroup | llmasp/llm/llmasp.py:232-238 | for a fact of group `j` and an earlier group `i`, a fact of group `i` occurs before it |
| Grouping.FirstWith | llmasp/llm/llmasp.py:232-238 | every key of the dict is the name of some input fact |
| Grouping.GroupSizesSum | llmasp/llm/llmasp.py:232-240 | the group sizes add up to the number of facts |
| Grouping.GroupByFact | llmasp/llm/llmasp.py:232-238 | the `setdefault(...).append` loop builds exactly the grouping function's dict |
| Oracles.Llm.Call | llmasp/llm/llmasp.py:326 | a model call appends exactly its request to the log and returns the oracle's answer to it |
| Oracles.Solver.Solve | llmasp/llm/llmasp.py:376 | a solver call appends exactly its program to the log and returns the oracle's answer |
| Oracles.Answers | llmasp/llm/llmasp.py:251-259 | the replies to a run of calls come one per call |
| Forward.AskAll | llmasp/llm/llmasp.py:325-331 | the query loop fails only when a model call raises |
| Forward.AskAllSucceeds | llmasp/llm/llmasp.py:325-326 | the loop succeeds exactly when every call is answered, and then it made exactly one call per query, in order, with the token limit |
| Forward.AskAllStops | llmasp/llm/llmasp.py:325-326 | a failed loop answered every query before the one that raised and asked nothing after it |
| Forward.AskAllHistory | llmasp/llm/llmasp.py:331 | each query gains exactly one assistant message, holding its reply's facts joined with `"\n"` |
| Forward.AskAllFacts | llmasp/llm/llmasp.py:328-330 | the collected facts are those extracted from each reply, in query order |
| Forward.AskAllMeta | llmasp/llm/llmasp.py:323-326 | `meta` is the last call's usage, or `None` when there are no queries |
| Forward.GatheredFactsRecoverable | llmasp/llm/llmasp.py:328-333 | the facts text extracts back to exactly the collected facts |
| Forward.GatheredShape | llmasp/llm/llmasp.py:328-329 | every collected fact is an atom followed by `.` |
| Forward.AskAllAnswered | llmasp/llm/llmasp.py:325-331 | a successful loop made one call per query in order, gathered every reply's facts (which extract back to themselves), answered each query with exactly one assistant message, and gathered nothing with no query |
| Forward.NaturalToAsp | llmasp/llm/llmasp.py:320-339 | every failure is re-raised as `Failed to convert natural language to ASP` |
| Forward.NaturalToAspSucceeds | llmasp/llm/llmasp.py:321-335 | on success: one call per query in order; program = facts text + `"\n"` + database + `"\n"` + knowledge base; the facts text is the extracted facts joined by `"\n"` and extracts back to them; each history entry is its query plus one assistant message; with no queries, `meta` is `None` and the facts text is empty |
| Forward.NaturalToAspStopsAtRaise | llmasp/llm/llmasp.py:325-339 | a raising model call ends the translation with a wrapped transport error, and the log stops at that call |
| Forward.NoQueriesNoCalls | llmasp/llm/llmasp.py:321 | when query construction fails, no model call is made and its error is re-raised |
| Backward.NarrationMessages | llmasp/llm/llmasp.py:279-297 | a group's request exists exactly when some postprocessing entry is the first whose predicate name is the group's; it is then the history, the behavior's postprocessing `init` (system), the context (system), and the behavior's postprocessing `mapping` with `{atom}`, `{intructions}` and `{facts}` replaced by that entry's key, its value and the facts joined by newlines (user) |
| Backward.Narration | llmasp/llm/llmasp.py:279-297 | a group's request exists exactly when its predicate has a postprocessing entry (otherwise `LLMASPError`), and it is the history followed by exactly three messages, with no token limit |
| Backward.ProcessFactGroup | llmasp/llm/llmasp.py:271-298 | a group call fails only by a missing property or a raising model call |
| Backward.Narrations | llmasp/llm/llmasp.py:251-259 | one request per group, each the history followed by three messages |
| Backward.NarrationsFound | llmasp/llm/llmasp.py:251-259 | the groups' requests all exist exactly when every group's predicate has a postprocessing entry |
| Backward.NarrateGroupsLog | llmasp/llm/llmasp.py:251-259 | a successful group loop made exactly the groups' requests, in order |
| Backward.NarrateGroupsReplies | llmasp/llm/llmasp.py:251-259 | the responses a successful group loop collects are the model's replies to those requests, in order |
| Backward.NarrateGroupsCalls | llmasp/llm/llmasp.py:251-259 | a successful group loop made exactly the groups' requests in order, and its responses are the model's replies to them |
| Backward.NarrateGroupsBounded | llmasp/llm/llmasp.py:251-259 | the group loop only appends to the log, makes at most one call per group, and fails only with `LLMASPError` or a transport error |
| Backward.AspToNatural | llmasp/llm/llmasp.py:231-269 | every failure is re-raised as `Failed to convert ASP to natural language` |
| Backward.AspToNaturalCalls | llmasp/llm/llmasp.py:240-265 | on success: the `_` entry exists; the log is the groups' requests in order followed by one summary call of the context and the `summarize` template filled with the replies; the result is the reply to that call |
| Backward.AspToNaturalShape | llmasp/llm/llmasp.py:240-265 | on success: exactly one call per distinct predicate plus one, each group call the flattened history (empty unless `use_history`) and three messages, and the last call exactly a system and a user message |
| Backward.MissingNarrationFails | llmasp/llm/llmasp.py:280-284 | a fact whose predicate has no postprocessing entry makes the translation raise an `LLMASPError` after at most one call per group, so the summary call is never made |
| Backward.NoFactsOnlySummary | llmasp/llm/llmasp.py:240-265 | with no facts the only call is the summary, with `{responses}` replaced by `""` |
| Backward.NarrationIgnoresInstructions | llmasp/llm/llmasp.py:288 | the placeholder actually replaced is `{intructions}`; a template without it gives the same prompt whatever the instructions |
| Pipeline.RunTrace | llmasp/llm/llmasp.py:341-395 | a run only appends to both logs and calls the solver at most once |
| Pipeline.NaturalToAspLogGrows | llmasp/llm/llmasp.py:320-339 | the forward translation only appends to the model's log |
| Pipeline.AspToNaturalLogGrows | llmasp/llm/llmasp.py:231-269 | the backward translation only appends to the model's log |
| Pipeline.RunShortCircuit | llmasp/llm/llmasp.py:376-379 | when the solver returns no facts, the run makes no further model call and returns `None` when `verbose` is 0 and `""` otherwise |
| Pipeline.RunResult | llmasp/llm/llmasp.py:363-395 | a run returns a value exactly when translation, solving and (for a non-empty answer set) narration all succeed, or the empty answer set meets a non-zero `verbose`; a failed forward translation returns `None` without calling the solver |
| Pipeline.RunCallCount | llmasp/llm/llmasp.py:368-383 | a run that returns a response made one solver call on the assembled program and one model call per query; when the solver found facts it also made one call per predicate group and one summary call, and when it found none the response is `""` with `verbose` set and nothing more was called |
| Pipeline.Llmasp.constructor | llmasp/llm/llmasp.py:53-79 | the object keeps the validated configuration, behavior, database text, model and solver |
| Pipeline.Llmasp.Create | llmasp/llm/llmasp.py:53-79 | construction raises exactly the error `Construct` gives, and otherwise yields a valid object holding the constructed setup |
| Pipeline.Llmasp.CreateQueries | llmasp/llm/llmasp.py:106-146 | the query-building loops compute exactly the queries of `QueriesFor` |
| Pipeline.Llmasp.AskQueries | llmasp/llm/llmasp.py:325-331 | the query loop leaves the log and result that `Forward.AskAll` specifies |
| Pipeline.Llmasp.NaturalToAsp | llmasp/llm/llmasp.py:300-339 | the method leaves the log and result that `Forward.NaturalToAsp` specifies |
| Pipeline.Llmasp.ProcessFactGroup | llmasp/llm/llmasp.py:271-298 | the method leaves the log and result that `Backward.ProcessFactGroup` specifies |
| Pipeline.Llmasp.NarrateAll | llmasp/llm/llmasp.py:251-259 | the group loop leaves the log and result that `Backward.NarrateGroups` specifies |
| Pipeline.Llmasp.AspToNatural | llmasp/llm/llmasp.py:211-269 | the method leaves the log and result that `Backward.AspToNatural` specifies |
| Pipeline.Llmasp.Run | llmasp/llm/llmasp.py:341-395 | the method leaves both logs and the result that `RunTrace` specifies |
| Legacy.Filtered | llmasp/llm/LLMASP.py:34-36 | every entry the filter keeps is non-empty and matches the key |
| Legacy.GetPropertyAgrees | llmasp/llm/LLMASP.py:32-39 | the older lookup returns the same pair as the current one and fails exactly when it does, always with `IndexError` |
| Legacy.QueriesPerEntry | llmasp/llm/LLMASP.py:19-30 | query construction succeeds exactly when no entry is empty and (for a non-empty list) `behavior` exists; it then yields one query per entry, `_` included, each exactly system behavior, system context with `{format}` replaced by the key, system instructions, and user `USER_INPUT: ` + input |
| Legacy.AskAll | llmasp/llm/LLMASP.py:78-83 | the query loop fails only when a model call raises |
| Legacy.AskAllSucceeds | llmasp/llm/LLMASP.py:78-79 | the loop succeeds exactly when every call is answered, and then it made one call per query in order, with no token limit |
| Legacy.AskAllProgram | llmasp/llm/LLMASP.py:77-82 | the program text is, query by query, `"\n"` and that reply's dotted facts joined by `"\n"` |
| Legacy.AskAllHistory | llmasp/llm/LLMASP.py:83 | each query gains exactly one assistant message, holding its reply's facts |
| Legacy.NaturalToAspProgram | llmasp/llm/LLMASP.py:75-88 | on success there was at least one query, one call per query was made in order, the program is the per-query lines followed by `"\n"` and the knowledge base, and there is one history entry per query |
| Legacy.NoEntriesUnbound | llmasp/llm/LLMASP.py:78-84 | with no preprocessing entries, nothing is asked and `print(facts)` raises `UnboundLocalError` |
| Legacy.DottedFactsEnd | llmasp/llm/LLMASP.py:80 | the older extraction only yields matches ending in `).` |
| Legacy.NarrateGroupsTranslation | llmasp/llm/LLMASP.py:58-61 | after the loop, the translation is the one carried through the groups in order, each step reading the group's postprocessing entry |
| Legacy.GroupRequests | llmasp/llm/LLMASP.py:62-66 | there is one request per group, each the history followed by exactly three messages |
| Legacy.NarrateGroupsCalls | llmasp/llm/LLMASP.py:58-67 | a successful group loop made exactly the groups' requests, in order, each with the translation carried to that group |
| Legacy.NarrateGroupsReplies | llmasp/llm/LLMASP.py:62-67 | the collected responses are the model's replies to those requests, in order |
| Legacy.AspToNaturalCalls | llmasp/llm/LLMASP.py:49-73 | on success: the settings were read; the log is the groups' requests followed by one final call of the replies joined by `"\n"` with `{response}` replaced by the `summary` value; the result is the reply to that call |
| Legacy.AspToNaturalShape | llmasp/llm/LLMASP.py:58-73 | on success: exactly one call per group plus one, each group call the flattened history and three messages, and the final call a single user message |
| Legacy.CarriedTranslationUnused | llmasp/llm/LLMASP.py:60-61 | a key without `{fact}` forgets the carried translation: its value with `{meaning}` replaced by the key |
| Legacy.CarriedTranslationKept | llmasp/llm/LLMASP.py:60-61 | the entry `{fact}: {meaning}` passes the carried translation on unchanged |
| Legacy.RunGroupCalls | llmasp/llm/LLMASP.py:90-98 | in a successful run the solver is called once on the program, and with the empty history every group call is exactly three messages |
| LegacyPipeline.Llmasp.constructor | llmasp/llm/LLMASP.py:9-11 | the object keeps the selected behavior, the configuration, the model and the solver |
| LegacyPipeline.Llmasp.Create | llmasp/llm/LLMASP.py:9-11 | construction fails with `KeyError(name)` when no behavior has the given name; otherwise it yields a new object holding the configuration, the behavior of that name, the model and the solver |
| LegacyPipeline.Llmasp.CreateQueries | llmasp/llm/LLMASP.py:19-30 | the index-by-index loop computes exactly the queries of `Legacy.CreateQueries` |
| LegacyPipeline.Llmasp.AskQueries | llmasp/llm/LLMASP.py:78-83 | the query loop leaves the log and result that `Legacy.AskAll` specifies |
| LegacyPipeline.Llmasp.NaturalToAsp | llmasp/llm/LLMASP.py:75-88 | the method leaves the log and result that `Legacy.NaturalToAsp` specifies |
| LegacyPipeline.Llmasp.NarrateAll | llmasp/llm/LLMASP.py:58-70 | the group loop, with its carried translation, leaves the log and result that `Legacy.NarrateGroups` specifies |
| LegacyPipeline.Llmasp.AspToNatural | llmasp/llm/LLMASP.py:41-73 | the method leaves the log and result that `Legacy.AspToNatural` specifies |
| LegacyPipeline.Llmasp.Run | llmasp/llm/LLMASP.py:90-98 | the method leaves both logs and the result that `Legacy.RunTrace` specifies |

## Left out

- `llmasp/llm/llm_handler.py` (the OpenAI client: network, retries, timeouts) is not part of this model. A call is an oracle of the calls made so far and the current request, and `None` stands for any exception it raises. `meta` is a token-usage record.
- Legacy.AskAll, Legacy.NarrateGroups, Legacy.AspToNatural: the older `LLMASP.py` imports its handler from a module `LLMHandler` (line 5), which is not part of this model. Its `call` is taken to return the reply text alone, and the model reads only the reply's text. The `llm_handler.py` beside it returns the pair `(completion, meta)` (lines 45-47); with that handler, `re.findall` at line 80 would raise `TypeError` on the first query.
- `llmasp/asp/solver.py` (clingo grounding and solving, model rendering, the asynchronous handle) is not part of this model. The solver is an oracle returning the facts, the interrupted flag and the satisfiable flag, or `None` for an exception.
- `load_file` and YAML parsing are file I/O. The files are given already parsed, with `None` for a file that cannot be opened or parsed. Values are strings, and a file's top-level keys are the fields of `AppConfig`.
- `llmasp/main.py` and `llmasp/examples/marketplace.py` are process glue. `abstract_llmasp.py` only loads the two files, stores four fields and declares the abstract methods; the model's classes hold the fields directly.
- Logging, `print` and the `logs` list of `run` are presentation only. The line read by `input("input: ")` is a parameter.
- LegacyPipeline.Llmasp.Run: returns the response that the older `run` prints, so its contract can describe it. The source's `run` returns `None`.
- The older `LLMASP.py` imports its base class from a module `AbstractLLMASP`, which is not part of this model. The `abstract_llmasp.py` beside it stores the loaded file as `behavior` and defines no `behaviors`, so `self.behaviors[behavior]` would raise `AttributeError` with that base class. `LegacyPipeline.Llmasp.Create` takes `behaviors` to be the loaded behavior file, a map from behavior names.
- Strings.Sub: replacement texts are restricted to text without backslashes (the `Plain` type), because `re.sub` would escape-process them. User input, configuration keys and values, model replies and solver facts are therefore all `Plain`.
- Facts.Scan: `\w` is ASCII letters, digits and `_`; Unicode word characters are not modelled.
- In place, `natural_to_asp` appends the assistant message to the very lists it returns as history. The model builds the answered queries as new values, so aliasing between the queries and the history is not modelled.
- Python dicts are modelled as a key order plus a map (`Grouping.Groups`), or as a sequence where the keys are `0..n-1` (the older revision's queries).
- What `run` prints when `verbose == 1` is not modelled; in the model `verbose` only decides between `None` and `""` when the solver finds no fact.
- The logger warnings that `__init__` emits on the database fallback path are presentation only.
