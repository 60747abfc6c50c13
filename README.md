# aiops-agent in Dafny

This project is a verified model of the logic inside the AIOps agent. The agent is an interactive command-line assistant. It keeps a store of conversations with an OpenAI model, routes each question to the skills whose system prompts suit it, and sends the question with those prompts. It records the answer locally. Around that loop sit these helpers:

- the planner's message assembly and its extraction of the reply's JSON object;
- the one-file script workspace with its patch fallback;
- the script runner's shebang header;
- the document chunker and GitHub link rewrite of the web retrieval index;
- the URL scanner;
- the configuration overlay;
- the naive skill matcher;
- the `install_from_repo`, `nephio_r5` and `oran_basic` skills.

Each Python source file becomes one module:

| module | file |
|---|---|
| `StateStore` | `state_manager.py` |
| `Orchestration` | `orchestrator.py` |
| `OpenAIClient` | `llm/openai_client.py` |
| `SkillsRouter` | `skills_router.py` |
| `Planner` | `planner.py` |
| `Workspace` | `script_workspace.py` |
| `Executor` | `executor.py` |
| `Rag` | `rag.py` |
| `Retrieval` | `retrieval.py` |
| `Config` | `config.py` |
| `Agent` | `agent.py` |
| `InstallFromRepo` | `skills/install_from_repo.py` |
| `NephioR5` | `skills/nephio_r5.py` |
| `OranBasic` | `skills/oran_basic.py` |

A few helper modules support them:

- `Wrappers` holds Option and Result, plus Python truthiness of an optional string.
- `Text` holds the Python `str` operations the code relies on: `strip`, ASCII `lower`, `find`/`rfind`, `split`, `splitlines`, `replace` and `join`.
- `JsonValue` holds the values `json.loads` returns.
- `Paths` and `Actions` hold small value types.

The model follows the form of the source:

- Objects that the source mutates are classes with `modifies` clauses: `StateManager`, `Orchestrator`, `ScriptWorkspace`, `WebRAG` and the config module that holds `DEFAULT_CONFIG`.
- Where the source loops, the model has methods with loop invariants: the input loop, `chunk_text`, the summary builder, the request builder and the config merge.
- Pure expressions, list comprehensions and `findall` are modelled as functions.

Everything outside the program comes in as a value or a total function. That covers the OpenAI service, `json.loads`, `json.dumps`, the clock, the `patch`, `bash`, `docker` and `git` processes, and the user's keyboard:

- an `Orchestration.Backend` of functions;
- one `Orchestration.ScriptLine` per input line, carrying the created conversation id, the remote-delete result and three timestamps;
- a `Workspace.PatchRun`;
- an `InstallFromRepo.InstallWorld`.

`_save` is modelled as an event that appends a snapshot of the whole state to `StateManager.saved`.

The code differs from the documented design in three places. The model follows the code each time:

- **Case of the verbs.** The verbs `new`, `switch`, `title` and `delete` are case-sensitive prefixes, and each takes everything after the first space as its argument. Only the whole-line keywords ignore case.
- **Patch fallback on a bare marker.** The fallback can write an empty file. For the patch `"+++"` it writes `""` (`Workspace.FallbackOfBareMarker`).
- **No planning loop.** A turn of the orchestrator only routes, sends, records and shows the reply. It never calls the planner, the workspace or the executor, and there is no clarify / propose / revise / run loop.

## Model

| member | source | states |
|---|---|---|
| StateStore.StateManager.constructor | src/aiops/state_manager.py:11-16 | a fresh store has no conversations, no current pointer and no snapshots, and satisfies the invariant that the current pointer is null or a stored key |
| StateStore.StateManager.Save | src/aiops/state_manager.py:35-37 | `_save` changes no state and appends exactly one snapshot of the full state |
| StateStore.StateManager.AddConversation | src/aiops/state_manager.py:42-52 | a known id changes nothing (records, pointer, snapshots). A new id gets a record with its title and time, no messages and no last response id, becomes current, and two snapshots are written. The pointer invariant is kept |
| StateStore.StateManager.SetCurrentConversation | src/aiops/state_manager.py:54-57 | the pointer moves to the id exactly when the id is stored; records never change |
| StateStore.StateManager.GetCurrentConversation | src/aiops/state_manager.py:59-60 | the pointer as a snapshot would record it; under the store invariant a non-null pointer names a stored record |
| StateStore.StateManager.ListConversations | src/aiops/state_manager.py:62-63 | the records as a snapshot would record them; under the store invariant they include the current one |
| StateStore.StateManager.SwitchConversation | src/aiops/state_manager.py:65-70 | returns true exactly when the id is stored, and only then moves the pointer and saves |
| StateStore.StateManager.RenameConversation | src/aiops/state_manager.py:72-75 | only the title of a stored record changes; unknown ids and the pointer are untouched |
| StateStore.StateManager.ClearConversation | src/aiops/state_manager.py:77-81 | a stored record loses its messages and last response id and keeps its title and id |
| StateStore.StateManager.DeleteConversation | src/aiops/state_manager.py:83-88 | removes exactly that key; the pointer becomes null exactly when it named the deleted id, so it stays null or a live key |
| StateStore.StateManager.AddMessage | src/aiops/state_manager.py:93-113 | an unknown id fails with NotFound and changes nothing. Otherwise exactly one message is appended at the end, carrying the response id only when it is non-empty. A non-empty id also becomes the record's last response id, and the old one is kept otherwise |
| StateStore.StateManager.UpdateConversation | src/aiops/state_manager.py:115-126 | the record grows by the user message and then the assistant message carrying the response id; other records and the key set are unchanged |
| StateStore.StateManager.GetHistory | src/aiops/state_manager.py:128-136 | fails exactly for an unknown id; otherwise `messages[-limit:]`, never more than `limit` messages for a positive limit |
| StateStore.HistorySuffix | src/aiops/state_manager.py:136 | Python's `msgs[-limit:]` is a suffix of the list: all of it for limit 0, the last min(limit, n) messages for a positive limit, and all but the first -limit messages for a negative one |
| Orchestration.ClassifyLine | src/aiops/orchestrator.py:33-73 | the empty line and only it is skipped. A verb command's argument is exactly what follows the verb and its space. A query carries the line unchanged |
| Orchestration.ClassifyKeywords | src/aiops/orchestrator.py:37-48 | each keyword (exit/quit, help, list, status, clear, history) is chosen exactly when the non-empty line lower-cases to it, both directions |
| Orchestration.ClassifyVerbs | src/aiops/orchestrator.py:49-63 | each of `new`, `switch`, `title`, `delete` is chosen exactly when the line starts with it and a space, case-sensitively |
| Orchestration.ClassifyQueries | src/aiops/orchestrator.py:72-73 | a line is a query exactly when it is non-empty, no keyword and has no verb prefix |
| Orchestration.VerbsAreNotKeywords | src/aiops/orchestrator.py:49-70 | a line with a verb prefix is never a keyword, and the four prefixes exclude one another, so the order of the checks does not matter for them |
| Orchestration.ClassifyVerb | src/aiops/orchestrator.py:28-63 | round trip: `verb + " " + arg` reads back as that verb with argument `arg` when `arg` does not end in whitespace |
| Orchestration.ClassifyKeywordAnyCase | src/aiops/orchestrator.py:28-39 | any casing of "quit" with surrounding blanks ends the loop |
| Orchestration.ClassifyQuery | src/aiops/orchestrator.py:28-73 | trimmed free text that is no command is passed on unchanged |
| Orchestration.ShortResponseId | src/aiops/orchestrator.py:141-142 | the shown id never exceeds 15 characters; ids of at most 15 are shown whole, longer ones as their first 12 characters and "..." |
| Orchestration.ShortResponseIdIdempotent | src/aiops/orchestrator.py:142 | shortening a shown id again leaves it unchanged |
| Orchestration.RowOf | src/aiops/orchestrator.py:117-142 | a row is active exactly for the current id, shows "Untitled" for an empty title, the message count and the shortened last response id |
| Orchestration.Listing | src/aiops/orchestrator.py:91-146 | no table exactly when there are no conversations; otherwise one row per stored id and no others |
| Orchestration.PromptsOf | src/aiops/orchestrator.py:217 | one system prompt per chosen skill, in the chosen order, each the `system_prompt` of that skill's registry entry |
| Orchestration.Orchestrator.constructor | src/aiops/orchestrator.py:15-20 | the orchestrator keeps the given store, skills and client, has shown nothing yet, and starts with the store invariant |
| Orchestration.Orchestrator.ListConversations | src/aiops/orchestrator.py:91-146 | shows the "no conversations" notice or the table of `Listing` |
| Orchestration.Orchestrator.NewConversation | src/aiops/orchestrator.py:148-152 | the created id is stored (a fresh record unless it already existed) and becomes current |
| Orchestration.Orchestrator.SwitchConversation | src/aiops/orchestrator.py:154-158 | switches and reports success for a stored id; otherwise the pointer stays and "not found" is shown |
| Orchestration.Orchestrator.RenameConversation | src/aiops/orchestrator.py:160-166 | acts only when a current conversation exists: then exactly its title changes, otherwise nothing changes |
| Orchestration.Orchestrator.DeleteConversation | src/aiops/orchestrator.py:168-173 | the local record goes only after the remote delete succeeded; on failure the store, pointer and snapshots are unchanged |
| Orchestration.Orchestrator.History | src/aiops/orchestrator.py:175-188 | with a current conversation shows the last `limit` messages, otherwise the "no active conversation" notice |
| Orchestration.Orchestrator.ClearConversation | src/aiops/orchestrator.py:190-196 | acts only when a current conversation exists: then its messages and last response id are emptied |
| Orchestration.Orchestrator.ShowStatus | src/aiops/orchestrator.py:198-205 | shows the current id and its title, or the "no active conversation" notice |
| Orchestration.Orchestrator.Route | src/aiops/orchestrator.py:210-217 | every chosen skill is registered; no choice means no system prompts and a warning, otherwise the prompts of the chosen skills |
| Orchestration.Orchestrator.EnsureConversation | src/aiops/orchestrator.py:219-224 | afterwards the target is current and stored: the old current one if truthy, else the created id, stored as "Untitled" when new; no other record changes |
| Orchestration.Orchestrator.HandleUserInput | src/aiops/orchestrator.py:207-244 | see the detailed description after this table |
| Orchestration.Orchestrator.Dispatch | src/aiops/orchestrator.py:40-73 | each command has its handler's effect (`Handled`). A blank line, help, list, status and history leave the store untouched. A failed remote delete leaves the store untouched too. `new`, `switch`, `title`, `delete` and `clear` change exactly what their handlers change. A query returns its turn: the target is current, and the turn raised exactly when neither continuation was usable. Otherwise the target's record grew by the user and assistant messages and no other record changed |
| Orchestration.Orchestrator.Step | src/aiops/orchestrator.py:28-73 | the loop stops with "exit" exactly on an exit line, after the "Exiting" notice. Every other line has the effect of its command (`Handled`), so a query reaches `handle_user_input` with the stripped line. A line that is empty after stripping changes neither the store nor the console. A turn stops the loop exactly when it raised, and a step never ends the input |
| Orchestration.Orchestrator.Pass | src/aiops/orchestrator.py:28-73 | what the loop uses of one step: it stops with "exit" exactly on an exit line, after the "Exiting" notice, and a raising turn is a query |
| Orchestration.Orchestrator.Start | src/aiops/orchestrator.py:22-73 | see the detailed description after this table |
| OpenAIClient.BuildInput | src/aiops/llm/openai_client.py:42-50 | one system item per prompt in the given order, then exactly one user item; with no or empty prompts just the user item |
| OpenAIClient.BuildParams | src/aiops/llm/openai_client.py:53-65 | succeeds exactly when one of the two continuations is truthy; `conversation` is set exactly when the conversation id is truthy, `previous_response_id` exactly when that id is, never both, with the given values and the input of `BuildInput` |
| OpenAIClient.ReplyText | src/aiops/llm/openai_client.py:70-74 | the extracted text, or "(no response)" when extraction fails |
| OpenAIClient.RouterText | src/aiops/llm/openai_client.py:93-95 | "[]" when extraction fails; otherwise the reply trimmed of the characters "`", newline, j, s, o, n at both ends — no such character remains at either end and only such characters were removed |
| OpenAIClient.RouterTextKeepsClean | src/aiops/llm/openai_client.py:93 | a reply with no junk at either end is returned unchanged |
| OpenAIClient.RouterTextIdempotent | src/aiops/llm/openai_client.py:93 | stripping a stripped reply changes nothing |
| OpenAIClient.RouterTextUnfences | src/aiops/llm/openai_client.py:93 | a fenced JSON reply loses its fences |
| SkillsRouter.Lookup | src/aiops/skills_router.py:37 | `name in self.skills` holds exactly when some entry has that key, and the entry found is one of the registry's |
| SkillsRouter.MakeSkillSummaries | src/aiops/skills_router.py:10-18 | one summary per skill in registry order, description defaulting to "" and intents to [] |
| SkillsRouter.RouterPrompt | src/aiops/skills_router.py:23-32 | the prompt starts with the fixed header, embeds the user text verbatim right after it and ends with the summaries JSON |
| SkillsRouter.KeepRegistered | src/aiops/skills_router.py:37 | every kept name is a registry key and no more names are kept than replied |
| SkillsRouter.SelectFromParsed | src/aiops/skills_router.py:35-39 | only registered names; an unparseable or non-iterable reply gives [] |
| SkillsRouter.SelectSkills | src/aiops/skills_router.py:20-39 | the names are registered and are the filter of the parsed router reply to the prompt built from the registry's summaries |
| SkillsRouter.KeepRegisteredAppend | src/aiops/skills_router.py:37 | filtering distributes over concatenation, so kept names keep their order |
| SkillsRouter.KeepRegisteredCounts | src/aiops/skills_router.py:37 | a registered name is kept exactly as often as it was replied, an unregistered one never |
| SkillsRouter.EmptyRegistrySelectsNothing | src/aiops/skills_router.py:37 | an empty registry selects nothing, whatever the reply |
| SkillsRouter.SelectFromStringList | src/aiops/skills_router.py:37 | a reply list of strings keeps exactly its registered names |
| SkillsRouter.NestedListSelectsNothing | src/aiops/skills_router.py:37-39 | a list element that cannot be looked up makes the whole selection [] |
| Planner.BuildMessages | src/aiops/planner.py:13-21 | 3 + history + 1 messages: the three system messages with their prefixes, the history in order, then the user message |
| Planner.ExtractSpan | src/aiops/planner.py:25-29 | fails exactly when '{' or '}' is missing; a non-empty span starts with '{', ends with '}' and occurs in the text with no '{' before it and no '}' after it; the span is empty only when the last '}' precedes the first '{' |
| Planner.ParseModelJson | src/aiops/planner.py:23-30 | fails exactly when no span can be cut or the parser rejects it, otherwise returns the parsed span |
| Planner.ExtractSpanOfBraced | src/aiops/planner.py:25-29 | text running from '{' to '}' is its own span |
| Planner.ExtractSpanIdempotent | src/aiops/planner.py:25-29 | extracting a non-empty span again gives it back |
| Planner.ExtractSpanCutsProse | src/aiops/planner.py:25-29 | brace-free prose around an object is cut away |
| Planner.BackwardBracesFail | src/aiops/planner.py:29-30 | when every '}' precedes the first '{' the span is "" and parsing fails |
| Workspace.ScriptWorkspace.constructor | src/aiops/script_workspace.py:5-8 | the script path is `root/script.sh` |
| Workspace.ScriptWorkspace.WriteNew | src/aiops/script_workspace.py:10-11 | the file holds exactly the script |
| Workspace.ScriptWorkspace.ApplyUnifiedDiff | src/aiops/script_workspace.py:13-27 | an exception writes the raw patch; a successful run keeps the tool's result; a failed run with "+++" writes the fallback content, without "+++" nothing more |
| Workspace.FallbackOfSingleTarget | src/aiops/script_workspace.py:22-25 | for a diff with one target the fallback is the body after the header line, less one final newline |
| Workspace.FallbackIgnoresEarlierTargets | src/aiops/script_workspace.py:22-24 | only the text after the last "+++" matters |
| Workspace.FallbackOfBareMarker | src/aiops/script_workspace.py:22-25 | the patch "+++" falls back to an empty file |
| Executor.InjectHeader | src/aiops/executor.py:11-13 | the result starts with "#!" and ends with the content; it equals the content exactly when that already starts with "#!", otherwise it is the bash header plus the content |
| Executor.InjectHeaderIdempotent | src/aiops/executor.py:11-13 | injecting twice is injecting once |
| Executor.CommandVector | src/aiops/executor.py:15-19 | the docker vector mounts the parent at /workspace and runs /workspace/name; otherwise `[shell, path]` |
| Executor.RunScript | src/aiops/executor.py:9-20 | a missing file raises; otherwise the file is rewritten only when it lacked a shebang and the run's triple is returned for the command vector |
| Rag.WindowEnd | src/aiops/rag.py:44-45 | the end of `words[start:start + size]`: with a non-negative size the window has `size` words unless the text ends first; a negative end counts from the back of the words, and an end before the start gives an empty window |
| Rag.NegativeSizeCountsFromBack | src/aiops/rag.py:44-45 | with 10 words and size -5, the windows from 0 and from 5 both end at word 5 |
| Rag.ChunkText | src/aiops/rag.py:39-48 | no words gives no chunks; otherwise the chunks are exactly the windows starting every `size - overlap` words, as many as needed for the last start to reach past the final word |
| Rag.ChunkWords | src/aiops/rag.py:40-45 | splitting a chunk gives back exactly its word window, so it has at most `size` words |
| Rag.ChunksCoverWords | src/aiops/rag.py:43-47 | every word lies in some chunk's window and the last window ends at the final word |
| Rag.WebRag.constructor | src/aiops/rag.py:17-18 | a fresh index has no chunks and no urls |
| Rag.WebRag.AddDocument | src/aiops/rag.py:50-62 | the old chunks and urls are kept; the new chunks are the chunking of the text with 500/50; each is paired with the url, so the two lists stay the same length |
| Rag.RawGithubUrl | src/aiops/rag.py:99-100 | a link lacking "github.com" or "/blob/" is unchanged |
| Rag.RawGithubUrlCutsEveryOccurrence | src/aiops/rag.py:99-100 | the rewrite cuts at every "github.com" and glues with the raw host, then cuts at every "/blob/" and glues with "/" |
| Retrieval.SchemeAt | src/aiops/retrieval.py:4 | `https?://` matches with its exact length, or not at all |
| Retrieval.MatchAt | src/aiops/retrieval.py:4 | a match is the scheme and a non-empty maximal run of characters other than whitespace and comma |
| Retrieval.UrlSpans | src/aiops/retrieval.py:7 | every span is a match from the scan position on, and the spans do not overlap and are in order |
| Retrieval.SpanUrl | src/aiops/retrieval.py:4 | a matched text starts with "http://" or "https://" and holds no whitespace or comma |
| Retrieval.FetchUrlsFromText | src/aiops/retrieval.py:6-7 | one URL per match, each the text of its span, starting with a scheme and holding no whitespace or comma |
| Retrieval.GapsHoldNoMatch | src/aiops/retrieval.py:4-7 | no match starts at a position that no found span covers |
| Retrieval.FindsEveryMatch | src/aiops/retrieval.py:4-7 | every match that starts strictly outside the found spans is one of them, so the scan misses no URL |
| Retrieval.SpansAreMaximal | src/aiops/retrieval.py:4-7 | each match ends at the end of the text or before whitespace or a comma, and has a character after "://" |
| Retrieval.NoHttpNoUrls | src/aiops/retrieval.py:4-7 | text without "http" holds no URL |
| Config.Step | src/aiops/config.py:43-49 | once an exception is raised an iteration changes nothing |
| Config.View | src/aiops/config.py:42-49 | the merged dict has the keys of the defaults and the replacements, preferring the replacement |
| Config.ConfigModule.constructor | src/aiops/config.py:16-29 | the module starts with `DEFAULT_CONFIG` |
| Config.ConfigModule.LoadConfig | src/aiops/config.py:32-54 | without a file or on a parse error the defaults are returned unchanged; otherwise the loop's result, with the default tables mutated in place |
| Config.FailureSticks | src/aiops/config.py:50-52 | after an exception the remaining entries change nothing |
| Config.FoldUntouched | src/aiops/config.py:42 | a key the file does not mention keeps its default table |
| Config.FoldSetsKey | src/aiops/config.py:44-48 | with distinct keys and no exception each entry decides its key: a table overlays the default table, any other value replaces it |
| Config.AbsentKeysKeepDefaults | src/aiops/config.py:42 | keys the file omits keep their default value, even after an exception |
| Config.ScalarReplaces | src/aiops/config.py:47-48 | a non-table value replaces its entry outright |
| Config.TableOverlays | src/aiops/config.py:45-46 | a table overlays its entries key by key, and `DEFAULT_CONFIG`'s own table now holds the overlay (the copy is shallow) |
| Config.UnknownTableFails | src/aiops/config.py:46-52 | a table for a key the defaults lack raises KeyError and the (mutated) defaults are returned |
| Agent.SelectSkill | src/aiops/agent.py:3-10 | None exactly when no skill matches; otherwise the first matching skill in table order |
| Agent.EmptyDescriptionMatchesAll | src/aiops/agent.py:8 | an empty description occurs in every prompt, so that skill always matches |
| Agent.MatchIgnoresCase | src/aiops/agent.py:8 | matching ignores ASCII case of the prompt |
| Agent.PlanTask | src/aiops/agent.py:12-22 | on a match one `skill` action naming it with summary "Selected skill: " + name; otherwise no actions with "No matching skill found" |
| Agent.PlanTaskHasActionIffMatch | src/aiops/agent.py:16-22 | the plan has an action exactly when some skill matches, and never more than one |
| InstallFromRepo.RepoName | src/aiops/skills/install_from_repo.py:14 | the repository name contains no '/' |
| InstallFromRepo.RepoNameIgnoresTrailingSlash | src/aiops/skills/install_from_repo.py:14 | a trailing slash does not change the name |
| InstallFromRepo.RepoNameOfSegment | src/aiops/skills/install_from_repo.py:14 | the name is the last path segment with every ".git" removed |
| InstallFromRepo.CloneDir | src/aiops/skills/install_from_repo.py:15 | the clone directory is cwd/repo_name |
| InstallFromRepo.Success | src/aiops/skills/install_from_repo.py:50-57 | None exactly when the user declined; true exactly when confirmed with return code 0 |
| InstallFromRepo.FollowUp | src/aiops/skills/install_from_repo.py:60-68 | success asks for the next task, a skip asks after skipping, failure troubleshoots with stdout + "\n" + stderr, each exactly |
| InstallFromRepo.GitCommands | src/aiops/skills/install_from_repo.py:19-26 | a new directory is cloned with one command, an existing one gets three `git -C dir` commands |
| InstallFromRepo.Run | src/aiops/skills/install_from_repo.py:9-72 | a failing git command troubleshoots with its message, after the commands up to it, and writes and runs no script. Otherwise all git commands run. A missing README troubleshoots with "Missing file: <path>" and writes no script. With a README the stripped model reply is the script; it runs only when confirmed, followed by `FollowUp` of the outcome |
| InstallFromRepo.Metadata | src/aiops/skills/install_from_repo.py:93-102 | the metadata names "install_from_repo" with the three parameters repo_url, ref, readme_rel_path |
| NephioR5.EnsureCluster | src/aiops/skills/nephio_r5.py:4 | the cluster appears in the anchored grep and in `kind create cluster --name` |
| NephioR5.CreateNamespace | src/aiops/skills/nephio_r5.py:7 | the namespace creation tolerates an existing namespace |
| NephioR5.InstallCore | src/aiops/skills/nephio_r5.py:8 | the helm install targets the namespace |
| NephioR5.PlanInstall | src/aiops/skills/nephio_r5.py:1-11 | no clarify, exactly 7 actions run by bash, helm or kubectl, the cluster and namespace in their steps, and the summary "Install Nephio R5 in cluster/namespace" |
| OranBasic.PlanInstallOran | src/aiops/skills/oran_basic.py:1-12 | no clarify, exactly 5 actions run by helm or kubectl, the namespace in the creation, install and get-pods steps, and the summary "Install O-RAN components in cluster/namespace" |
| OranBasic.ActionsIgnoreCluster | src/aiops/skills/oran_basic.py:3-11 | the cluster appears only in the summary: the actions do not depend on it |
| Text.Strip | src/aiops/orchestrator.py:28 | `str.strip()` leaves no whitespace at either end |
| Text.StripTrimmed | src/aiops/orchestrator.py:28 | what `strip()` removes is whitespace only, taken from the two ends |
| Text.StripIsStripBy | src/aiops/orchestrator.py:28 | `strip()` agrees with the general strip by a character class |
| Text.Lower | src/aiops/orchestrator.py:37 | `lower()` maps every character and keeps the length |
| Text.Words | src/aiops/rag.py:40 | `split()` yields non-empty whitespace-free words, and none exactly for blank text |
| Text.WordsOfJoin | src/aiops/rag.py:45 | splitting the single-space join of words gives the words back |
| Text.SplitOn | src/aiops/script_workspace.py:22-23 | `split(sep)` has at least one piece, and two or more exactly when the separator occurs |
| Text.JoinSplitOn | src/aiops/script_workspace.py:22 | joining the pieces with the separator gives the text back |
| Text.ReplaceIsJoinOfSplit | src/aiops/rag.py:100 | `replace` is cutting at every occurrence and gluing with the replacement |
| Text.FindChar | src/aiops/planner.py:25 | `find` gives the first occurrence, and fails exactly when the character is absent |
| Text.RFindChar | src/aiops/planner.py:26 | `rfind` gives the last occurrence, and fails exactly when the character is absent |

### Orchestration.Orchestrator.HandleUserInput

The turn fails with ValueError exactly when:

- the target conversation id is empty, and
- that conversation has no truthy stored last response id.

Otherwise, afterwards:

- the target is current;
- the request continues from the stored response id when one exists, and from the conversation otherwise, never both;
- its input is the system prompts of the chosen skills, in order, then the user item;
- the answer and the id come from the reply;
- the record grows by the user message and then the assistant message, and no other record changes;
- the answer is shown last.

When the turn fails, the target is still current and its "Untitled" record is stored, with nothing else changed.

### Orchestration.Orchestrator.Start

- No line before the one that ended the loop was an exit line.
- "Exit" ends on an exit line and shows "Exiting" last.
- A crash ends on a query.
- The end of input consumes every line, none of which was an exit line, and shows the goodbye notice last.

## Left out

- Console rendering (Rich tables, colours, emoji), `print_help`'s contents and `show_script` are not modelled. Notices in `Orchestrator.shown` stand for what is printed. The "Created" column's `datetime` formatting is also left out.
- `StateManager._load` and the JSON file are not modelled. The store starts empty, and `_save` is a snapshot appended to `saved`. The console-before-assignment crash on a corrupt file belongs to `_load` and is not modelled either.
- The message count falls back to 0 when the `messages` field is not a list. The model cannot have that case: messages are always a sequence.
- Network calls, the routing model and `json.loads`/`json.dumps` are functions supplied as parameters. This covers `conversations.create`, `conversations.delete` and `responses.create`. Exceptions that the client raises, other than the ValueError modelled by `BuildParams`, are not modelled.
- A chosen skill without a `system_prompt` key would raise KeyError. That cannot happen in the model, because every skill carries a prompt.
- Subprocesses, temporary files, `chmod` and `mkdir` are not modelled. This covers `patch`, `bash`, `docker` and `git`. Their outcomes are given as values.
- Path normalisation of `pathlib` is not modelled. A path is a parent string and a final name.
- Embeddings, the FAISS index, similarity search, web search, `requests`, BeautifulSoup and the index files of `WebRAG` are not modelled. They rest on floats and foreign libraries.
- `troubleshoot_task`'s own work and the model call that writes the install script are not modelled. Only what `run` hands to them and does with their results is modelled. The module-level `OpenAI()` client of `install_from_repo.py` is also outside the model.
- The `KeyboardInterrupt` exit of `start` is not modelled. End of input is the end of the given script of lines.
- Orchestration.Listing: gives a map from id to row, so the table's row order (the dictionary's insertion order) is not modelled.
- The routing model's reply is an unconstrained function of the prompt. `AskRouter` builds `ask_router` from it by applying `RouterText`.
- Orchestration.Orchestrator.Start: states how the loop ends and which lines it consumed. What each line does is stated per line by `Step`; it is not composed over the whole script.
- A skill without a `description` key (agent.py:8) or whose metadata lacks `name` (agent.py:19-20) would raise KeyError. That cannot happen in the model, because `SkillMeta` always carries both.
- Skill registries, the `SKILLS` table and JSON objects are sequences of pairs, and lookups take the first entry with a key. A Python dict cannot hold a key twice; the model does not exclude duplicates, and when keys are distinct the first entry is the only one.
- Rag.ChunkText: requires `chunk_size > overlap` when the text has words, because otherwise the source loop never terminates.
- Text.Lower: ASCII only. Python's full Unicode case mapping is not modelled.
- Retrieval.FetchUrlsFromText: models the one fixed pattern `https?://[^\s,]+` as a scanner, not a general regular-expression engine.
- Skill loading from the skills directory, the MCP server, the CLI glue and the import-time API-key check are outside the core and not modelled.
