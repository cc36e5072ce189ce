# Project memory store, modelled in Dafny

This project models the core of a small project-memory server: the
`ProjectMemoryManager` of `src/memory_manager.py`. The manager keeps one
structured knowledge base per project. It holds the project info, a
component-status table with an overall progress label, an append-only log of
architecture decisions, a table of working solutions keyed by a normalised
problem string, the current priorities with their change history, and a
bounded conversation history. It also offers a relevance-ranked search over
all of these.

Every mutator changes its sections in place and then runs the save step.

The modules follow the source:

- `Memory` holds the class `ProjectMemoryManager`. Each section of the memory
  dictionary is a field. Each mutator's `modifies` clause names exactly the
  fields the source writes, so "nothing else changes" is part of every
  contract. Timestamps are parameters.
- `OrderedMaps` is the insertion-ordered dictionary used for the component
  and solution tables. Assigning to an existing key keeps its position, and
  the search tie order depends on that.
- `Progress` holds the `overall_progress` label.
- `SolutionKeys` holds `_generate_solution_key` and `_extract_tags`.
- `Relevance` holds `_calculate_relevance_score`. `Ranking` holds the stable
  descending sort. `Search` holds what `search_memory` collects and returns.
- `Detection` holds the marker-file table of `_detect_project_info`.
- `Structure` holds `_load_config` and `_ensure_memory_structure` over a
  small JSON datatype.
- `Backups` holds the backup rotation of `_create_backup`.
- `Text` and `Slices` hold the Python string and slice semantics the rest
  relies on: `re.findall(r'\w+')`, `lower()`, `in` on strings, string order,
  `s[-m:]` and `s[:n]`.

Some behaviour of the code worth knowing up front:

- `get_current_context` returns the last 5 decisions and the last 3
  conversations;
- working solutions are de-duplicated by their key, with `usage_count` and
  `previous_versions`;
- the relevance score is the sum of per-word hits (2 for a whole-word match,
  1 for a substring-only match) divided by the word count of the searched
  fields;
- `search_memory` scans decisions, working solutions, conversations and
  then components;
- `_ensure_memory_structure` only adds missing keys and converts nothing.

## Model

| member | source | states |
|---|---|---|
| `Memory.ProjectMemoryManager.Fresh` | src/memory_manager.py:147-178 | a new memory has version "1.0.0", the detected name, type, description and technologies, the project root, each of the four clock reads (created, last updated, last assessment, last active) in its own field, progress "in_progress", empty tables and logs, and zero counters |
| `Memory.LoadFresh` | src/memory_manager.py:134-178 | with no memory file, the new memory holds what `_detect_project_info` finds (name as the last path segment, type, description, technologies), version "1.0.0", the root and the four clock reads, progress "in_progress", empty tables, priorities and logs, and zero counters |
| `Memory.ProjectMemoryManager.Touch` | src/memory_manager.py:201-206 | the save step changes only `project_info.last_updated` and `metadata.last_active` |
| `Memory.ProjectMemoryManager.CurrentContext` | src/memory_manager.py:248-270 | the recent decisions are the last min(5, n) decisions in order; the recent conversations are the last min(3, m) conversations in order; each statistic equals the size of its container; project name, type, description, root, overall progress and last update come from the memory; tables and lists are passed through unchanged |
| `Memory.ProjectMemoryManager.UpdateImplementationStatus` | src/memory_manager.py:272-299 | the component's record is replaced by exactly the given status, details, progress (no range check) and time, in place or at the end; other components are unchanged; the overall label is recomputed from the complete count |
| `Progress.CountComplete` | src/memory_manager.py:287 | the number of complete components is at most the number of components |
| `Progress.CountAllComplete` | src/memory_manager.py:287-291 | the complete count equals the table size exactly when every component is complete |
| `Progress.CountNoneComplete` | src/memory_manager.py:287-296 | the complete count is zero exactly when no component is complete |
| `Progress.ProgressLabel` | src/memory_manager.py:289-296 | the label is "complete" exactly when the complete count equals the total, "not_started" exactly when it is zero and the total is not, and otherwise the `in_progress (k/n components complete)` form |
| `Progress.ProgressLabelMeaning` | src/memory_manager.py:285-296 | for a non-empty table the label is "complete" iff all are complete, "not_started" iff none is, otherwise "in_progress (k/n components complete)" |
| `Memory.ProjectMemoryManager.AddArchitectureDecision` | src/memory_manager.py:304-322 | exactly one record is appended, with id = old length + 1, status "active" and the tags of decision and rationale; earlier decisions are unchanged; `total_decisions` equals the new length |
| `SolutionKeys.ExtractTags` | src/memory_manager.py:517-528 | the tags are exactly the technology keywords that occur as words of the lower-cased text |
| `SolutionKeys.KeywordsIn` | src/memory_manager.py:527-528 | a word is a tag iff it is among the words and is a technology keyword |
| `SolutionKeys.GenerateSolutionKey` | src/memory_manager.py:530-536 | the key has at most 50 characters, all lower-case word characters or `_` |
| `SolutionKeys.KeepWordOrSpace` | src/memory_manager.py:533 | `re.sub(r'[^\w\s]', '', ...)`: the result keeps, in order, exactly the word and whitespace characters and is no longer than the input |
| `SolutionKeys.Strip` | src/memory_manager.py:534 | `strip()`: the result is no longer than the input and neither starts nor ends with whitespace |
| `SolutionKeys.CollapseSpaces` | src/memory_manager.py:534 | `re.sub(r'\s+', '_', ...)`: each maximal whitespace run becomes one `_`, other characters are kept in order; the result is no longer than the input |
| `SolutionKeys.KeepWordOrSpaceClean` | src/memory_manager.py:533 | removing the characters that are neither word characters nor whitespace from lower-cased text leaves only lower-case word characters and whitespace |
| `SolutionKeys.StripKeepsClean` | src/memory_manager.py:534 | stripping cleaned text keeps it clean |
| `SolutionKeys.CollapseSpacesKeys` | src/memory_manager.py:534 | after replacing whitespace runs of cleaned text by `_`, only key characters (lower-case word characters and `_`) are left |
| `SolutionKeys.KeyIdempotent` | src/memory_manager.py:530-536 | normalising a key again gives the same key |
| `SolutionKeys.KeyDropsPunctuation` | src/memory_manager.py:533 | a character that is neither a word character nor whitespace changes nothing in the key, wherever it stands |
| `SolutionKeys.KeyOfPlainProblem` | src/memory_manager.py:532-536 | the key of a problem of lower-case words separated by single spaces is the first 50 characters of the problem with each space turned into `_` |
| `SolutionKeys.KeyCollapsesWhitespace` | src/memory_manager.py:533-535 | any non-empty run of whitespace (spaces, tabs, newlines) inside a problem gives the same key as a single space |
| `SolutionKeys.KeyStripsEnds` | src/memory_manager.py:533-535 | whitespace before or after a problem does not change its key |
| `SolutionKeys.KeyIgnoresCase` | src/memory_manager.py:533 | problems that differ only in letter case get the same key |
| `Memory.SolutionRecord` | src/memory_manager.py:331-350 | a new solution has usage count 1 and no previous versions; a repeated one has the old count + 1 and the old previous versions followed by the old solution and its timestamp; empty tags mean extracted tags |
| `Memory.ProjectMemoryManager.AddWorkingSolution` | src/memory_manager.py:327-355 | the solution table becomes `FiledSolutions` of the old one and stays well formed; `total_solutions` equals the table size afterwards; only the save timestamps change elsewhere |
| `Memory.FiledSolutionsMeaning` | src/memory_manager.py:332-352 | filing stores the new record under the problem's key, in place for an existing key and appended for a new one; the table grows by one exactly when the key is new |
| `OrderedMaps.OrderedMap.Put` | src/memory_manager.py:352 | assignment keeps every key listed once, updates the entry, and keeps an existing key's position or appends a new key |
| `OrderedMaps.PutSize` | src/memory_manager.py:352-353 | the table size grows by one exactly when the key is new |
| `Memory.ProjectMemoryManager.UpdatePriorities` | src/memory_manager.py:360-377 | the priorities become exactly the given list; the history gains one old/new entry iff the old list was non-empty and is untouched otherwise |
| `Memory.SessionId` | src/memory_manager.py:392 | the session id starts with "session_" and holds no ':' or '-' after it |
| `Memory.WithoutSeparators` | src/memory_manager.py:392 | the result holds no ':' or '-', is no longer than the input, and is the input itself when the input has no separator |
| `Memory.WithoutSeparatorsConcat` | src/memory_manager.py:392 | separator removal works piece by piece on a concatenation, so the other characters keep their order |
| `Memory.SeparatorDropped` | src/memory_manager.py:392 | a ':' or '-' is dropped wherever it stands |
| `Memory.ProjectMemoryManager.LogConversationContext` | src/memory_manager.py:382-403 | the record's id is old length + 1; the kept history is a suffix of old history plus the record, ends with the record, and has min(old + 1, max) entries (all of them for a cap of 0, and -max fewer than old + 1 for a negative cap); `total_conversations` is the length before truncation |
| `Memory.LogTwiceAtCapacity` | src/memory_manager.py:387-401 | once the history is at its cap, two records logged in a row both get id max + 1 and the length stays at the cap |
| `Slices.PyTail` | src/memory_manager.py:401 | `s[-m:]` is a suffix of m elements for positive m, the whole list for 0, and drops -m elements from the front for negative m |
| `Slices.PyTake` | src/memory_manager.py:469 | `s[:n]` is a prefix of n elements for non-negative n and drops -n elements from the end for negative n |
| `Text.Lower` | src/memory_manager.py:545 | `lower()` keeps the length and maps each character to its lower-case form, leaving word and whitespace classes unchanged |
| `Text.IsSubstring` | src/memory_manager.py:551 | `in` on strings: the pattern occurs in the text as a contiguous run |
| `Text.StrLe` | src/memory_manager.py:239 | the order `sorted()` uses for names: by code point, with a proper prefix first; it is total, transitive and antisymmetric |
| `Text.Words` | src/memory_manager.py:412 | every token of `re.findall(r'\w+')` is a non-empty run of word characters |
| `Text.WordsOfWord` | src/memory_manager.py:412 | a word on its own is exactly one token |
| `Text.WordsSplit` | src/memory_manager.py:412 | a non-word character splits the tokens: the tokens of `a + c + b` are those of `a` followed by those of `b`, so the tokens are exactly the maximal word-character runs in order |
| `Search.QueryWords` | src/memory_manager.py:410-412 | the query words are the word tokens of the lower-cased query |
| `Search.Summary` | src/memory_manager.py:424 | a result summary is the first min(n, 100) characters of the text followed by `...` (the same form at lines 437 and 450) |
| `Relevance.RelevanceScore` | src/memory_manager.py:538-555 | the score is non-negative, and zero when the searched fields hold no words |
| `Relevance.WordHit` | src/memory_manager.py:551-552 | a query word earns at most 2 points in a field, and earns any exactly when it occurs in the field's text; 2 when it is also one of the field's words, else 1 |
| `Relevance.CalculateRelevanceScore` | src/memory_manager.py:538-555 | the two nested loops compute the total hits over the total word count of the non-empty fields |
| `Relevance.FieldHitsPositive` | src/memory_manager.py:550-552 | a field earns points iff some query word occurs in it |
| `Relevance.TotalHitsPositive` | src/memory_manager.py:543-553 | the hits are positive iff some query word occurs in some searched field |
| `Relevance.ScorePositiveIffMatch` | src/memory_manager.py:543-555 | an item scores above zero iff some query word occurs in one of its non-empty lower-cased fields |
| `Relevance.NoQueryWordsNoScore` | src/memory_manager.py:550-555 | a query with no words scores zero everywhere |
| `Memory.ScanDecisions` | src/memory_manager.py:415-426 | the decision loop collects exactly the positive-scoring decisions, in log order |
| `Memory.ScanSolutions` | src/memory_manager.py:428-439 | the solution loop collects exactly the positive-scoring solutions, in table order |
| `Memory.ScanConversations` | src/memory_manager.py:441-452 | the conversation loop collects exactly the positive-scoring conversations, in order |
| `Memory.ScanComponents` | src/memory_manager.py:454-466 | the component loop collects exactly the positive-scoring components, in table order, scored on name, details and status |
| `Search.ScanHits` | src/memory_manager.py:415-466 | every collected hit has a positive score |
| `Search.DecisionHitsComplete` | src/memory_manager.py:415-426 | every decision with a positive score is among the hits |
| `Search.SolutionHitsComplete` | src/memory_manager.py:428-439 | every stored solution with a positive score is among the hits |
| `Search.ConversationHitsComplete` | src/memory_manager.py:441-452 | every conversation with a positive score is among the hits |
| `Search.ComponentHitsComplete` | src/memory_manager.py:454-466 | every component with a positive score is among the hits |
| `Search.ScanOrder` | src/memory_manager.py:415-466 | hits come in scan order: decisions, then solutions, then conversations, then components |
| `Ranking.SortDesc` | src/memory_manager.py:468 | the sorted results are a permutation of the hits in non-increasing score order |
| `Ranking.SortIsStable` | src/memory_manager.py:468 | for every score, the results with that score keep their scan order |
| `Search.SearchOutcome` | src/memory_manager.py:468-469 | at most `limit` results (min(limit, hits) for non-negative limit), a prefix of the sorted hits, sorted, each among the hits |
| `Memory.ProjectMemoryManager.SearchMemory` | src/memory_manager.py:408-469 | the result is the sorted, cut scan of the four sources; at most `limit` results, each scoring above zero, in non-increasing score order |
| `Detection.PathName` | src/memory_manager.py:88 | the project name is the last path segment of the root |
| `Detection.NoMarkerNoTechnology` | src/memory_manager.py:109-115 | no technology is detected iff no marker file is present; otherwise the first detected technology is the first present marker's |
| `Detection.DetectedMeaning` | src/memory_manager.py:85-115 | the type is the first detected technology, or "unknown" when there is none, and then the description is the generic one |
| `Detection.DetectProjectInfo` | src/memory_manager.py:85-115 | the detected information equals `DetectedFor` of the root and the present files |
| `Detection.ScanMarkers` | src/memory_manager.py:108-115 | the loop over a marker table collects the technologies of the present marker files in table order, and takes the type and description from the first of them, or the generic ones when there is none |
| `Structure.LoadConfig` | src/memory_manager.py:64-83 | every default key is present; a user object overrides exactly its own keys; other defaults stay |
| `Structure.PyContains` | src/memory_manager.py:193-197 | Python's `in` tests keys of a dict, elements of a list, substrings of a string, and raises for other values |
| `Structure.EnsureMemoryStructure` | src/memory_manager.py:180-199 | the loop over the required sections and the two subsection checks compute the backfilled document, or the error Python raises |
| `Structure.EnsureStructure` | src/memory_manager.py:184-199 | the specification of the check: a non-object is an error; otherwise missing sections are filled with their defaults and then the two subsections are ensured in turn |
| `Structure.EnsureSubsection` | src/memory_manager.py:193-197 | a subsection key already present (as a dict key, list element or substring) keeps the document; a missing one is added when the section is a dict; `in` on a number, boolean or `null` section, and adding to a section that is not a dict, are errors |
| `Structure.StructureComplete` | src/memory_manager.py:180-199 | afterwards every required section and both subsections are present, existing sections are kept, and added sections hold their defaults |
| `Structure.StructureAccepts` | src/memory_manager.py:180-199 | a non-object is rejected; an object whose `implementation_status` and `architecture` sections, where present, are objects is accepted |
| `Structure.Idempotent` | src/memory_manager.py:180-199 | checking a checked document changes nothing |
| `Structure.WrittenBackfillsHistoryAsDict` | src/memory_manager.py:188-190 | as written, an empty memory document gets `conversation_history` and `lessons_learned` as empty dicts |
| `Structure.MissingListSectionsBecomeLists` | src/memory_manager.py:188-190 | with list sections backfilled as lists, a missing list section becomes `[]` and a present one is kept |
| `Structure.EnsureMemoryStructureFixed` | src/memory_manager.py:180-199 | the corrected loop computes the structure with every list section backfilled as `[]` |
| `Backups.BackupName` | src/memory_manager.py:231-232 | the new backup's name matches the backup glob |
| `Backups.IsBackupName` | src/memory_manager.py:239 | the glob `memory_backup_*.json`: a name starting with `memory_backup_` and ending with `.json`, where the middle may be empty |
| `Backups.WithBackup` | src/memory_manager.py:232-235 | after the write, the listing holds exactly the old names and the new one, and stays free of duplicates (a backup written in the same second replaces the file) |
| `Backups.BackupNames` | src/memory_manager.py:239 | the glob keeps exactly the listing entries named `memory_backup_*.json` |
| `Backups.SortNames` | src/memory_manager.py:239 | the backups are sorted by name, as a permutation |
| `Backups.Doomed` | src/memory_manager.py:240-242 | the deleted backups number max(n - 10, 0) for n backups |
| `Backups.Kept` | src/memory_manager.py:239-242 | the surviving backups number min(10, n) for n backups |
| `Backups.RotationMeaning` | src/memory_manager.py:239-242 | rotation splits the sorted backups into a deleted prefix and a kept suffix of min(10, n) names; only backups are deleted, and every deleted one sorts before every kept one |
| `Backups.RemoveOldBackups` | src/memory_manager.py:240-242 | the deletion loop removes exactly the doomed backups and never a non-backup file |
| `Backups.NewestSurvives` | src/memory_manager.py:239-242 | in a directory listing, the backup that sorts last is kept |
| `Backups.CreateBackup` | src/memory_manager.py:226-242 | after writing and rotating, at most 10 backups remain, and a backup newer than all others survives |

## Left out

- `src/server.py` (command-line handling and the tool-protocol server) is not part of this model.
- File I/O is not modelled. This covers creating the memory directory, reading and writing the memory, context and config files, writing backup files, and deleting them. Backup rotation works on a given directory listing.
- A failed write in the save step is not modelled. In the source the in-memory change stays and the exception propagates.
- Converting a loaded memory document into the typed class state is not modelled. The class starts from `Fresh`, and the load-time check works on the JSON document.
- `_detect_project_info` reading `package.json` for a name and description (lines 118-130) is not modelled, and neither is resolving the project root. Detection works on the set of file names present in the root.
- `datetime.now()` values are parameters. A fresh memory takes its four clock reads as four parameters. The save step's two `datetime.now()` calls are one `savedAt` value.
- `\w`, whitespace and `lower()` follow their ASCII meaning. Unicode word characters and case mapping are not modelled.
- The relevance score is an exact real. Floating-point rounding is not modelled.
- `get_project_summary` (presentation only) and the verbose logging are not modelled.
- The `architecture.patterns` and `lessons_learned` sections are not fields of the class, because no operation of the core writes them.
- The configuration values other than `max_conversation_history` are not held by the class. The `backup_enabled` gate in the save step is not modelled; rotation is modelled on its own in `Backups.CreateBackup`.
- The `.get(..., default)` fallbacks of `get_current_context` are not modelled, because every section of the class state is always present.
- Memory.ScanComponents: scores the component name, details and status. In the source a status record's own `component` key would override the name, but records written by `update_implementation_status` never have one.
- Structure.LoadConfig: a configuration file whose JSON is a list of key/value pairs, which `dict.update` also accepts, is treated like any other non-object.
- Memory.ProjectMemoryManager.LogConversationContext: the history cap comes from the user's configuration file through `dict.update` (line 78) without any check, and only an integer cap is modelled (`structure.dfy:14` holds JSON numbers as integers). In the source a fractional cap raises `TypeError` at the slice on line 401 once the history is longer than the cap, and a string or `null` cap raises at the comparison on line 400 on every call; in both cases the record has already been appended and `total_conversations` set (lines 395-396), the exception propagates, and the save step is skipped.
- Backups.CreateBackup: the new backup is shown to survive only when its name sorts after every existing backup. A timestamp format keeps this true for backups written in later seconds.

## Findings

| source | as written | input that shows it | evidently intended | confidence | as-written member | corrected member |
|---|---|---|---|---|---|---|
| src/memory_manager.py:188-190 | every missing section except `current_priorities` is backfilled with `{}`, including the list sections `conversation_history` and `lessons_learned` | a memory file holding `{}`: after loading, `conversation_history` is `{}`, and the next `log_conversation_context` fails on `.append` | list sections backfilled with `[]`, as a fresh memory creates them | high; not executed | `Structure.WrittenBackfillsHistoryAsDict` | `Structure.MissingListSectionsBecomeLists` |
