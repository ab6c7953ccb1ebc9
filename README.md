# Role-play server backup: the verified core

The repository backs up a role-play chat server. It asks the chat exporter for the server's channel
list, exports every channel to a JSON file, and merges new exports into the existing history.
It then re-numbers the files, cleans up bad messages, gives the role-play "bot" characters
small ids, and indexes the scenes the characters play. This project models the in-memory logic
of those steps, one Dafny module per source file, and proves what each step promises:

- `Scenes` (`find_all_scenes.py`): which authors are characters, one scene-finder call per
  character, the first trace to report a start message wins, sorting by start timestamp,
  renumbering 1..n, and the per-category and whole-backup roll-ups.
- `Merge` (`merge_exports.py`): the forward search for a message id, the merge of an update
  export into the old history, and the status gate.
- `ChannelList` (`get_channel_list.py`): the parser of the exporter's `channels` listing, the
  category filters and the clean-up that recounts.
- `SortFiles` (`sort_exported_files.py`): the name normalisation, the file search, reading the
  global position back from a file name, ranking within a category, the clean-up of numbers,
  and the new file names.
- `CharacterIds` (`assign_ids.py`): the name→id map, the lookups by name and by id, the ids
  selected by tags, and the assignment of ids to bot authors. The character list and the map
  are fields of `Registry`, which `AssignIdsInFile` updates.
- `UpdateInfo` (`update_info.py`): the status gate, the overall status derived from the status
  of each step, and the scene counters. `BackupInfo` holds the backup info fields these
  operations rewrite.
- `FixMessages` (`fix_bad_messages.py`): the clean-up pass that removes mention-only messages
  while iterating the same list, modelled with Python's iterator behaviour.
- `Exceptions` (`exceptions.py`): `unwrap`, which renders a cause chain, and the `Error` kinds
  of the failure paths, named as the code that raises them names them.
- Helpers: `Wrappers` (Option/Result), `Strings` (`split`, `join`, `strip`, `replace`,
  `endswith`, integer formatting and `int()`), `Sorting` (Python's stable sort by a key, as an
  insertion sort, with permutation and stability lemmas), and `Messages` (the exported message
  and channel file).

The source works by loops that mutate lists and dictionaries. Each such loop is a `method` with
a `while`/`for` loop and invariants. It is proved equal to a specification function, and the
promised properties are lemmas about that function. A dictionary or list that a function
changes and hands back is modelled as a value the method returns. Where the loop body is long,
one iteration is a helper method with its own contract
(for example `Scenes.AddAuthor`, `CharacterIds.RegisterAlts`, `ChannelList.RecountCategories`).
File and JSON I/O become parameters. A folder listing is a `seq<string>`, a loaded file is a
datatype value, and a per-category folder listing is a function from folder name to listing.
The external per-character scene finder is a function parameter.

Where the code and its own descriptions disagree, the model follows the code. The disagreements
are listed under "## Findings", each with the as-written behaviour and a corrected version. The
rest of the model (the methods) keeps the behaviour as written.

## Model

| member | source | states |
|---|---|---|
| Scenes.AuthorIds | src/find_all_scenes.py:66-67 | every author id parses with `int()` and the list holds the parsed ids in message order; otherwise some id is rejected |
| Scenes.CharactersSpec | src/find_all_scenes.py:66-69 | the character list holds exactly the ids below 1000 that occur, each once, in order of first appearance |
| Scenes.Characters | src/find_all_scenes.py:66-69 | reference for the enumeration loop: each parsed author id below 1000 is appended when it is not yet listed; CharactersSpec states what the list then holds and EnumerateCharacters that the loop computes it |
| Scenes.NoLowIdsNoCharacters | src/find_all_scenes.py:68 | a channel whose authors all have ids of at least 1000 has no characters |
| Scenes.EnumerateCharacters | src/find_all_scenes.py:66-69 | the enumeration loop fails with ValueError exactly when some author id does not parse, and otherwise returns the character list of the parsed ids |
| Scenes.AddAuthor | src/find_all_scenes.py:67-69 | one iteration: appends the author's id when it is a new character id, or reports the unparsable id |
| Scenes.FirstFailurePoisons | src/find_all_scenes.py:67 | an unparsable id in a prefix makes the whole enumeration fail |
| Scenes.CallsFor | src/find_all_scenes.py:74-78 | one finder call per character, with `[character]`, start 0 and deep set |
| Scenes.FindAllScenesInChannel | src/find_all_scenes.py:57-95 | the method computes the channel's scenes; on success the finder calls made are exactly one `([c], 0, True)` per character in order, and on failure none |
| Scenes.CollectNewStarts | src/find_all_scenes.py:81-84 | adding one finder result keeps `total_scenes` equal to the deduplicated traces so far and `scene_starts_lookup` equal to their start ids |
| Scenes.AddIfNewStart | src/find_all_scenes.py:82-84 | a scene is appended, with its start id, exactly when its start id was not seen |
| Scenes.Dedup | src/find_all_scenes.py:81-84 | reference for `total_scenes`/`scene_starts_lookup`: each finder scene is kept when its start id is not among the kept ones; DedupSpec and the three Dedup lemmas after it state what is kept |
| Scenes.DedupSpec | src/find_all_scenes.py:81-84 | no two kept scenes share a start id; every start id seen is kept; each kept scene is the first scene with its start id; every such first scene is kept |
| Scenes.DedupDistinct | src/find_all_scenes.py:82-84 | no two kept scenes share a start id |
| Scenes.DedupKeepsStarts | src/find_all_scenes.py:82-84 | every start id of the traces survives |
| Scenes.DedupKeepsFirsts | src/find_all_scenes.py:82-84 | every kept scene is the first occurrence of its start id (later duplicates are dropped, not merged) |
| Scenes.DedupFirstsKept | src/find_all_scenes.py:82-84 | every first occurrence of a start id is kept |
| Scenes.OrganiseSpec | src/find_all_scenes.py:89-93 | the sorted, renumbered list has the same length, is sorted by start timestamp, has `sceneId == i + 1` at position i, holds the same scenes (up to their numbers) and keeps the insertion order of equal timestamps |
| Scenes.Organise | src/find_all_scenes.py:89-93 | reference for the sort by start timestamp followed by renumbering from 1; OrganiseSpec, OrganisePermutes and the Organise lemmas state its ordering, numbering and contents, and SortAndRenumber computes it |
| Scenes.OrganisePermutes | src/find_all_scenes.py:89 | up to scene numbers, the result is the stable sort of the input and a permutation of it |
| Scenes.SortAndRenumber | src/find_all_scenes.py:89-93 | the sort-then-renumber loop computes the organised list |
| Scenes.OrganiseKeepsScene | src/find_all_scenes.py:89 | every scene of the result comes from the input |
| Scenes.OrganiseLosesNoScene | src/find_all_scenes.py:89 | every input scene appears in the result |
| Scenes.OrganiseKeepsDistinct | src/find_all_scenes.py:89-93 | sorting and renumbering keep start ids distinct |
| Scenes.NoCharactersNoScenes | src/find_all_scenes.py:66-95 | a channel without character messages yields no scenes and no finder calls |
| Scenes.ChannelScenesOrdered | src/find_all_scenes.py:81-93 | a channel's scenes are sorted by start timestamp, numbered 1..n and have distinct start ids |
| Scenes.ChannelScenes | src/find_all_scenes.py:57-95 | reference for `find_all_scenes_in_channel`: ValueError for an unparsable author id, else the deduplicated finder scenes of the characters, sorted and renumbered; FindAllScenesInChannel computes it and the ChannelScenes lemmas state its order, completeness and first-wins rule |
| Scenes.ChannelScenesComplete | src/find_all_scenes.py:74-84 | every start id any character's trace reports is in the channel's scenes |
| Scenes.ChannelScenesFirstWins | src/find_all_scenes.py:81-84 | every scene in the result is, up to its number, the first trace reporting its start |
| Scenes.Flatten | src/find_all_scenes.py:145 | the concatenation has as many scenes as the lists together |
| Scenes.RollUpSpec | src/find_all_scenes.py:145-154 | a roll-up has the summed length, is sorted by start timestamp, is numbered 1..n and is a permutation of the concatenation |
| Scenes.CategoryScenes | src/find_all_scenes.py:114-161 | reference for `find_scenes_in_category`: the first failing channel aborts, else the channels' scenes concatenated, sorted and renumbered; FindScenesInCategory computes it, FailedChannelAborts and RollUpSpec state its failure and contents |
| Scenes.FindScenesInCategory | src/find_all_scenes.py:114-161 | the category loop concatenates the scenes of the channel files (names ending `.json` but not `scenes.json`) in order, then sorts and renumbers; the first failing channel aborts |
| Scenes.FailedChannelAborts | src/find_all_scenes.py:136 | a failing channel makes the whole category fail with its error |
| Scenes.FindAllScenes | src/find_all_scenes.py:165-193 | the global loop concatenates the category roll-ups, sorts and renumbers; a failing category aborts |
| Scenes.FailedCategoryAborts | src/find_all_scenes.py:183 | a failing category makes the whole roll-up fail with its error |
| Merge.IndexFrom | src/merge_exports.py:88-96 | the result is None iff no message at or after `base` has the id; otherwise it is the first such position |
| Merge.FindIndex | src/merge_exports.py:88-96 | the search loop with its early exit computes that position |
| Merge.IndexFromIds | src/merge_exports.py:143 | the search only looks at ids, so overwriting a message by one with the same id does not change later searches |
| Merge.Walk | src/merge_exports.py:134-154 | each matched update message is matched at a position holding its id |
| Merge.WalkMatchesFirst | src/merge_exports.py:143-153 | each match is the first occurrence of the id at or after the previous match |
| Merge.WalkNondecreasing | src/merge_exports.py:143-153 | successive match positions never decrease |
| Merge.WalkStopsAtMiss | src/merge_exports.py:148-149 | the walk stops at the first update message that cannot be found |
| Merge.WalkStays | src/merge_exports.py:149 | after the first miss no further message is matched |
| Merge.OverwriteMatched | src/merge_exports.py:130-154 | the loop overwrites exactly the matched positions with the update messages and leaves `update_index` at the first miss, at the last message when all matched, or at 0 for an empty update |
| Merge.OverwriteKeepsIds | src/merge_exports.py:154 | overwriting matched positions keeps every id of the old list |
| Merge.OverwriteContents | src/merge_exports.py:154 | every old position is unchanged or holds the update message matched there |
| Merge.UpdateIndex | src/merge_exports.py:131-137 | `update_index` after the loop: the first unmatched update position, or the last update position when all match; FullOverlapDuplicatesLast and DuplicateExample show the case the last message is appended twice |
| Merge.MergedMessages | src/merge_exports.py:130-157 | reference for the merged list: the old list with matched positions overwritten, followed by the update from `UpdateIndex` on; MergeChannel computes it and MergedShape, DisjointUpdateAppends and EmptyUpdateKeepsHistory state its shape |
| Merge.MergeChannel | src/merge_exports.py:117-162 | the merged file holds the merged messages, `messageCount` is their number and `exportedAt` comes from the update |
| Merge.MergedShape | src/merge_exports.py:154-157 | the merged length is the old length plus the update length minus `update_index`; the old part keeps its ids; the tail is `update[update_index:]` |
| Merge.DisjointUpdateAppends | src/merge_exports.py:148-157 | when the first update message is not found, the whole update is appended |
| Merge.EmptyUpdateKeepsHistory | src/merge_exports.py:134-157 | an empty update leaves the history unchanged |
| Merge.FullOverlapDuplicatesLast | src/merge_exports.py:137-157 | when every update message matches, the result is one longer than the history and ends with a second copy of the last update message |
| Merge.DuplicateExample | src/merge_exports.py:137-157 | the history `[m]` merged with the update `[m]` gives `[m, m]` |
| Merge.IntendedMergeShape | src/merge_exports.py:100-108 | the intended merge appends only the unmatched rest, keeps the old ids, and adds nothing when everything matched |
| Merge.IntendedMergedMessages | src/merge_exports.py:100-108 | the merge its description intends, appending only the unmatched rest of the update; IntendedMergeShape and IntendedAgreesOnPartialOverlap state its shape and where it agrees with MergedMessages |
| Merge.IntendedAgreesOnPartialOverlap | src/merge_exports.py:148-157 | the code and the intended merge agree whenever some update message is not found |
| Merge.CheckBaseStatus | src/merge_exports.py:39-72 | main status "running" gives AlreadyRunningError; "failed" or a `sortingWriteStatus` other than "success" gives DataNotReadyError; an unreadable status gives MergeError; otherwise it returns the old main status and sets `main` and `mergeStatus` to "running", leaving the other fields alone |
| Merge.GateExcludesSecondRun | src/merge_exports.py:52-62 | once the gate lets a merge through, the saved status refuses a second one |
| ChannelList.ReadLine | src/get_channel_list.py:126-154 | a thread line keeps the parent channel, and an entry read with a consistent parent belongs to the parent after it |
| ChannelList.ChannelLineRead | src/get_channel_list.py:126-141 | `id \| category / channel` becomes a non-thread entry with the three fields stripped, and becomes the parent |
| ChannelList.ThreadLineRead | src/get_channel_list.py:144-154 | `id \| channel / thread \| status` becomes a thread of the parent channel, with the `*` removed from the id and the stripped thread name; before any channel line it fails |
| ChannelList.IndexOf | src/get_channel_list.py:181 | `list.index`: the first position of the name |
| ChannelList.ThreadPosition | src/get_channel_list.py:188-193 | `threadPosition` is one more than the number of the category's threads of the same channel |
| ChannelList.AddLineEntry | src/get_channel_list.py:157-202 | adding one entry computes the parser's next state |
| ChannelList.ParseOutput | src/get_channel_list.py:98-209 | the line loop computes the parsed channel list, or GetChannelListError where the source raises |
| ChannelList.ParseLines | src/get_channel_list.py:122-202 | the parser state holds one category per name in `category_list` |
| ChannelList.PrefixFailurePoisons | src/get_channel_list.py:208-209 | once a line fails, the whole parse fails |
| ChannelList.ParseCountsLines | src/get_channel_list.py:202 | `numberOfChannels` is the number of lines processed |
| ChannelList.FirstLineIsChannel | src/get_channel_list.py:144-150 | a successful parse starts with a channel line (a thread first has no parent) |
| ChannelList.EmptyOutputFails | src/get_channel_list.py:118-209 | blank output fails to parse (its single empty line has no entry) |
| ChannelList.AddToCategoryOk | src/get_channel_list.py:178-201 | adding a channel or a thread keeps the category's numbering: channel k (from 0) has position k+1; a thread's position is its parent channel's plus one, the parent being the category's last channel; its `threadPosition` is one more than the earlier threads of its channel; the entry count grows by one |
| ChannelList.AddChannelOk | src/get_channel_list.py:178-201 | adding a channel keeps the numbering |
| ChannelList.AddThreadOk | src/get_channel_list.py:185-196 | adding a thread under the last channel keeps the numbering |
| ChannelList.WithCategoryOk | src/get_channel_list.py:157-176 | after making sure the name has a category, names stay distinct, category k (from 0) has position k+2 and the name is listed; a known name changes nothing, and a new name is appended to `category_list` together with a new empty category at position `len(category_list) + 1` |
| ChannelList.WithCategory | src/get_channel_list.py:157-176 | a category name not yet listed is appended together with a new empty category at position `len(category_list) + 1`; WithCategoryOk states the lists stay aligned and hold the name |
| ChannelList.AddEntryOk | src/get_channel_list.py:157-202 | adding an entry keeps every category well numbered and the counter equal to the entries, and the entry's channel is the last channel of its category |
| ChannelList.AddEntry | src/get_channel_list.py:157-202 | one entry: make sure its category exists, append the entry to that category's channels or threads and count it; AddLineEntry computes it and AddEntryOk states that it keeps each category aligned with its name and leaves the entry's channel the last channel of its category |
| ChannelList.ParseLinesOk | src/get_channel_list.py:122-202 | every parse state reached is well numbered and counted |
| ChannelList.ParsedOutputSpec | src/get_channel_list.py:98-206 | a successful parse has distinct category names, category k at position k+2, every category well numbered, `numberOfChannels` equal to the lines and the entries, and zero category and scene counters |
| ChannelList.ParsedOutputContents | src/get_channel_list.py:122-202 | a successful parse lists the categories of the entries read, each once, in order of first appearance, and each category's channels are exactly the `(id, channel)` of its channel entries and its threads exactly the `(id, channel, thread)` of its thread entries, in line order |
| ChannelList.ParsedEntries | src/get_channel_list.py:122-154 | the entries the lines are read into, one per line, in line order |
| ChannelList.FirstAppearances | src/get_channel_list.py:157-162 | `category_list` as the loop grows it: exactly the names that occur, each once |
| ChannelList.FirstAppearancesInOrder | src/get_channel_list.py:157-162 | the names are listed in the order of their first occurrence |
| ChannelList.AddEntryHolds | src/get_channel_list.py:157-202 | one entry keeps the state holding exactly the entries read: it lands at the end of its own category's channels or threads, and no other category changes |
| ChannelList.ParseLinesHolds | src/get_channel_list.py:122-202 | after every line the state holds exactly the entries read so far |
| ChannelList.ParsedOutput | src/get_channel_list.py:98-209 | reference for `parse_output`: GetChannelListError when a line cannot be read, else the channel list the line loop builds; ParseOutput computes it and ParsedOutputSpec, FirstLineIsChannel and EmptyOutputFails state its result |
| ChannelList.RemoveCategories | src/get_channel_list.py:245-246 | no kept category is in the list |
| ChannelList.KeepCategories | src/get_channel_list.py:249-250 | every kept category is in the list |
| ChannelList.RemoveCategoriesMembers | src/get_channel_list.py:245-246 | a category is kept iff it was there and its name is not in the list |
| ChannelList.KeepCategoriesMembers | src/get_channel_list.py:249-250 | a category is kept iff it was there and its name is in the list |
| ChannelList.FiltersAppend | src/get_channel_list.py:245-250 | both filters keep order: filtering a concatenation is concatenating the filtered parts |
| ChannelList.FiltersPartition | src/get_channel_list.py:245-250 | the two filters split the list between them; with no matching name `remove` keeps all, and with all names matching `keep` keeps all |
| ChannelList.FiltersIdempotent | src/get_channel_list.py:245-250 | removing twice is removing once, and keeping from a removed list keeps nothing |
| ChannelList.CleanChannelList | src/get_channel_list.py:261-280 | the cleaned list has the ignored categories removed and each remaining one recounted; `numberOfChannels` is the total of channels and threads, `numberOfCategories` the number of categories, and `numberOfScenes` is unchanged |
| ChannelList.RecountCategories | src/get_channel_list.py:271-275 | the recount loop sets each category's counters and sums the entries |
| ChannelList.Recount | src/get_channel_list.py:272-274 | each category gets `numberOfChannels`/`numberOfThreads` from its list lengths |
| ChannelList.RecountSum | src/get_channel_list.py:271-275 | after recounting, each category's counters equal its list lengths and the total equals their sum |
| ChannelList.CleanKeepsNumbering | src/get_channel_list.py:266-276 | cleaning keeps every remaining category well numbered and removes every ignored name |
| SortFiles.Lower | src/sort_exported_files.py:42 | `lower()` on a kept character maps A-Z to a-z and leaves the rest |
| SortFiles.Normalize | src/sort_exported_files.py:41-42 | the output has only lowercase letters, digits and `-` |
| SortFiles.NormalizeAppend | src/sort_exported_files.py:41-42 | normalisation works character by character |
| SortFiles.NormalizeDrops | src/sort_exported_files.py:42 | every character outside `[a-zA-Z0-9-]` is dropped |
| SortFiles.NormalizeIdempotent | src/sort_exported_files.py:41-42 | normalising twice is normalising once |
| SortFiles.JsonStem | src/sort_exported_files.py:64 | `os.path.splitext`: the name without its `.json` extension, except that a name whose part before `.json` is only dots (or empty) is kept whole |
| SortFiles.FirstMatch | src/sort_exported_files.py:57-69 | the first file that ends in `.json`, not in `scenes.json`, and whose stem normalises to the target; None when there is none |
| SortFiles.FindChannelFile | src/sort_exported_files.py:57-69 | the search loop with its early return computes the first match |
| SortFiles.StripNumberFails | src/sort_exported_files.py:92 | `split("# ")[1]` fails exactly on names without `# ` |
| SortFiles.StripNumber | src/sort_exported_files.py:92 | `filename.split("# ")[1]`, None where that raises IndexError; StripNumberFails and StripNumberOfNewNames state when it fails and that it undoes the renames |
| SortFiles.ReadFileName | src/sort_exported_files.py:136-138 | `int(position)` and the normalised stem of a file name that splits into exactly two parts at `# `, ValueError otherwise; ReadFileNameNeedsSeparator states that a name without `# ` fails, and ReadChannelFileName that a new channel file name reads back its position and stem |
| SortFiles.StripNumberOfNewNames | src/sort_exported_files.py:92-228 | stripping the number of `"{pos}# {old}"` or `"{pos}-{threadPos}# {old}"` gives `old` back when `old` has no `# ` |
| SortFiles.ReadFileNameNeedsSeparator | src/sort_exported_files.py:136 | a file name without `# ` makes the analysis fail |
| SortFiles.ReadChannelFileName | src/sort_exported_files.py:136-201 | reading back a name written as `"{pos}# {stem}.json"` gives the position and the normalised stem |
| SortFiles.NoHashInNumber | src/sort_exported_files.py:201 | a formatted number never holds `#` |
| SortFiles.ChannelFileName | src/sort_exported_files.py:201 | `f"{channel_pos}# {old_filename}"`; ReadChannelFileName and StripNumberOfNewNames state that reading it back gives the position and stripping it gives the old name |
| SortFiles.ThreadFileName | src/sort_exported_files.py:228 | `f"{channel_pos}-{thread_pos}# {old_filename}"`; StripNumberOfNewNames states that stripping it gives the old name |
| SortFiles.KeyIndex | src/sort_exported_files.py:138 | a key's position in the dictionary, or None when it is absent |
| SortFiles.DictSetSpec | src/sort_exported_files.py:138 | setting a key keeps keys distinct, sets that key and changes no other |
| SortFiles.FileDictOf | src/sort_exported_files.py:131-138 | reference for the dict loop: every file except `scenes.json` ones read in order, a later file of the same key overwriting; BuildFileDict computes it and FileDictFailurePoisons and FileDictLastWins state its failure and values |
| SortFiles.BuildFileDict | src/sort_exported_files.py:131-138 | the loop over the folder's files computes `file_dict`, skipping `scenes.json` files |
| SortFiles.FileDictFailurePoisons | src/sort_exported_files.py:136-138 | an unreadable file name stops the analysis |
| SortFiles.FileDictLastWins | src/sort_exported_files.py:133-138 | each key ends up with the position of the last file with that normalised name |
| SortFiles.Ranked | src/sort_exported_files.py:141-145 | the re-ranked dictionary has as many entries as the dictionary |
| SortFiles.Rerank | src/sort_exported_files.py:141-145 | the sort and the renumbering loop compute the ranking |
| SortFiles.RankedSpec | src/sort_exported_files.py:141-145 | ranks are 1..n, keys stay distinct and come from the dictionary, and they appear in ascending order of global position |
| SortFiles.RankOrder | src/sort_exported_files.py:141-145 | a rank lies in 1..n, and a smaller global position gets a smaller rank |
| SortFiles.RankedKeysFromDict | src/sort_exported_files.py:141-145 | every ranked key comes from the dictionary |
| SortFiles.RankChannels | src/sort_exported_files.py:149-150 | the loop gives every channel its rank, or fails (KeyError) iff some channel has no file |
| SortFiles.RankThreads | src/sort_exported_files.py:156-157 | the loop gives every thread its parent channel's rank, or fails iff one has no file |
| SortFiles.OrderCategory | src/sort_exported_files.py:120-161 | one category's analysis, or the error that stops it |
| SortFiles.CategoryOrderSpec | src/sort_exported_files.py:149-161 | channels are sorted by position and threads by (position, threadPosition); both are the ranked originals permuted; each position is the rank of its channel's file; nothing else changes |
| SortFiles.CategoryOrderChannels | src/sort_exported_files.py:149-154 | the channel half of the above |
| SortFiles.CategoryOrderThreads | src/sort_exported_files.py:156-161 | the thread half of the above |
| SortFiles.CategoryOrderStable | src/sort_exported_files.py:154-161 | the sorts are stable: entries with equal keys keep their order |
| SortFiles.MissingChannelFileFails | src/sort_exported_files.py:150 | a channel with no file in its folder makes the analysis fail with KeyError |
| SortFiles.Repositioned | src/sort_exported_files.py:149-161 | KeyError when a channel or thread has no rank, else the category with each channel's and thread's position set to its rank and both lists sorted stably; CategoryOrderSpec states its result through CategoryOrder, and MissingChannelFileFails that a channel without a file gives KeyError |
| SortFiles.CategoryOrder | src/sort_exported_files.py:128-161 | reference for one category of `get_number_from_files`: read the file names into the dict, rank it, reposition the category; OrderCategory computes it and CategoryOrderSpec, CategoryOrderChannels, CategoryOrderThreads and CategoryOrderStable state its result |
| SortFiles.ReplaceColons | src/sort_exported_files.py:122 | `replace(":", "_")` changes exactly the colons |
| SortFiles.MapResult | src/sort_exported_files.py:120 | a successful pass over the categories gives one result per category |
| SortFiles.MapResultSpec | src/sort_exported_files.py:120 | each result is the analysis of its own category |
| SortFiles.MapResultFailurePoisons | src/sort_exported_files.py:120 | the first failure stops the pass |
| SortFiles.GetNumberFromFiles | src/sort_exported_files.py:115-165 | every category is analysed in its own folder `"{position}# {name}"`, or the first error stops the analysis |
| SortFiles.OrderedCategoriesSpec | src/sort_exported_files.py:120-161 | each category of the result is the analysis of the same category in its own folder |
| SortFiles.CleanStop | src/sort_exported_files.py:85-95 | the clean-up renames files up to the first channel file without `# ` |
| SortFiles.CleanName | src/sort_exported_files.py:87-92 | the clean-up's new name for one file: a channel file's name without its number, or None where the split raises IndexError; other files keep their names; CleanStop and RemoveNumberFromFiles state the names the pass gives and that it stops with IndexError at the first channel file without `# ` |
| SortFiles.RemoveNumberFromFiles | src/sort_exported_files.py:80-97 | the loop strips the number of every channel file and leaves other files alone, or fails with IndexError at the first channel file without `# `, leaving the earlier files renamed |
| SortFiles.RenameCategoryFiles | src/sort_exported_files.py:180-237 | each channel file is renamed in the category folder and each thread file in `Threads`, one after the other |
| SortFiles.RenameChannelFiles | src/sort_exported_files.py:191-210 | the loop over the channels computes the renamed listing |
| SortFiles.RenameThreadFiles | src/sort_exported_files.py:216-237 | the loop over the threads computes the renamed listing |
| SortFiles.RenameChannelFileSpec | src/sort_exported_files.py:193-210 | only the first matching file is renamed, to `"{pos}# {old}"`; the new name strips back to the old one and reads back as the channel's position and normalised name; with no match nothing changes |
| SortFiles.RenameChannelFile | src/sort_exported_files.py:193-210 | the folder with the channel's file, found by the normalised channel name, renamed to ChannelFileName; unchanged when no file matches; RenameChannelFileSpec states this |
| SortFiles.RenameThreadFileSpec | src/sort_exported_files.py:218-237 | only the first file matching the thread title is renamed, to `"{pos}-{threadPos}# {old}"`, and it strips back to the old name; with no match nothing changes |
| SortFiles.RenameThreadFile | src/sort_exported_files.py:218-237 | the folder with the thread's file, found by the normalised thread title, renamed to ThreadFileName; unchanged when no file matches; RenameThreadFileSpec states this |
| CharacterIds.CheckBaseStatus | src/assign_ids.py:35-65 | "running" gives AlreadyRunningError and "failed" gives DataNotReadyError; an unreadable status gives AssignIdError; otherwise it returns the old main status and sets `main` and `idAssignStatus` to "running", leaving the rest alone |
| CharacterIds.CharacterInfo | src/assign_ids.py:81-91 | the given id, `names == [name]`, and empty writer, tags and other versions |
| CharacterIds.NameRegs | src/assign_ids.py:107-109 | one registration per name of the character, with its id |
| CharacterIds.MapFromAppend | src/assign_ids.py:107-114 | registering in two batches is registering in one |
| CharacterIds.MapFromLookup | src/assign_ids.py:104-116 | a name is in the map iff it was registered, with the id of its last registration |
| CharacterIds.IdMap | src/assign_ids.py:104-116 | reference for `build_id_lookup_map`: every name and alternate name registered in order, a later registration overwriting an earlier; BuildIdLookupMap computes it and MapFromLookup, KnownIffRegistered and RegisteredBy state which id each name gets |
| CharacterIds.LastRegSpec | src/assign_ids.py:109 | the last registration of a name holds the id the map keeps |
| CharacterIds.BuildIdLookupMap | src/assign_ids.py:104-116 | the nested loops register every name of every character and then of its alternates, later registrations overwriting earlier ones |
| CharacterIds.RegisterNames | src/assign_ids.py:107-109 | `register(char)` adds every name of the character |
| CharacterIds.RegisterAlts | src/assign_ids.py:113-114 | the loop registers every alternate |
| CharacterIds.IdMapAppendInfo | src/assign_ids.py:245-248 | appending a new `character_info` entry adds exactly its name to the map |
| CharacterIds.KnownIffRegistered | src/assign_ids.py:104-139 | a name is found by `get_character_id` iff it is in the lookup map |
| CharacterIds.RegistrationOf | src/assign_ids.py:108-114 | every name a character or one of its alternates has is registered |
| CharacterIds.RegisteredBy | src/assign_ids.py:108-114 | every registration comes from a character or one of its alternates |
| CharacterIds.AltWithName | src/assign_ids.py:136-138 | the first alternate with the name, or None |
| CharacterIds.FirstKnowing | src/assign_ids.py:133-138 | the first character whose main names or alternates have the name, or None |
| CharacterIds.GetCharacterId | src/assign_ids.py:129-139 | the id of the first character, in list order, that knows the name: its own id for a main name, otherwise the id of its first alternate with the name; None when absent |
| CharacterIds.AltWithId | src/assign_ids.py:159-161 | the first alternate with the id, or None |
| CharacterIds.GetCharacterName | src/assign_ids.py:152-162 | the search loop computes the name of the first character or alternate with the id |
| CharacterIds.CharacterNameSpec | src/assign_ids.py:152-162 | None means no character or alternate has the id; a name returned is `names[0]` of an entry with that id |
| CharacterIds.FirstName | src/assign_ids.py:157-161 | `names[0]` of the entry the search stops at, IndexError when it has no names; CharacterNameFirstMatch states the search result through it |
| CharacterIds.CharacterName | src/assign_ids.py:152-162 | reference for `get_character_name`: each character, then its alternates, in order until one has the id; GetCharacterName computes it and CharacterNameNone and CharacterNameFirstMatch state its result |
| CharacterIds.HasId | src/assign_ids.py:155-161 | a character or one of its alternates has the id, the condition under which the search stops at that character |
| CharacterIds.EntryWithId | src/assign_ids.py:155-161 | the entry the search takes the name from has the id, and is the character itself or one of its alternates |
| CharacterIds.CharacterNameNone | src/assign_ids.py:152-162 | the search returns None exactly when no character and no alternate has the id |
| CharacterIds.CharacterNameFirstMatch | src/assign_ids.py:155-162 | when `chars[i]` is the first character holding the id, the result is `FirstName` of that character when its own id matches and otherwise of its first alternate with the id; it is IndexError exactly when that entry has no names, and that entry's first name otherwise |
| CharacterIds.Once | src/assign_ids.py:193-203 | one copy of the id when the switch and tag are on, none otherwise |
| CharacterIds.TaggedId | src/assign_ids.py:191-203 | an alternate's id is appended once per enabled tag switch it carries |
| CharacterIds.AddTaggedId | src/assign_ids.py:193-203 | the four `if`s append the alternate's id once per enabled tag |
| CharacterIds.AddTaggedIds | src/assign_ids.py:191-203 | the loop over the alternates appends their tagged ids |
| CharacterIds.AddAltNameIds | src/assign_ids.py:206-208 | the loop appends the id of every alternate that has the name |
| CharacterIds.GetAllCharacterIds | src/assign_ids.py:176-210 | the loop computes, per character, the main id and tagged alternates on a main-name match, then the alternates with the name |
| CharacterIds.AllCharacterIdsMembers | src/assign_ids.py:182-210 | an id is returned iff some character contributes it |
| CharacterIds.AllCharacterIds | src/assign_ids.py:176-210 | reference for `get_all_character_ids`: the ids the enabled switches select, character by character in order; GetAllCharacterIds computes it and AllCharacterIdsMembers states which ids it holds |
| CharacterIds.CharacterIdsForMembers | src/assign_ids.py:185-208 | a character contributes its own id on a main-name match, an alternate's id on a main-name match when a tag switch applies, and the id of any alternate having the name |
| CharacterIds.TaggedIdsMembers | src/assign_ids.py:191-203 | an alternate's id is selected iff one of its tags is switched on |
| CharacterIds.TaggedIdMembers | src/assign_ids.py:193-203 | the same for one alternate |
| CharacterIds.AltNameIdsMembers | src/assign_ids.py:206-208 | an id is appended iff an alternate with that id has the name |
| CharacterIds.NoSwitchesNoTagged | src/assign_ids.py:193-203 | with every switch off, no alternate is selected by tag |
| CharacterIds.WithAuthorId | src/assign_ids.py:254 | only the author's id changes, to the decimal string of the character id |
| CharacterIds.NextId | src/assign_ids.py:244 | `len(lookup_map) + 1`, the number of registered names plus one; NextIdCollides shows it can equal an id already in use |
| CharacterIds.AssignOne | src/assign_ids.py:239-254 | one message of the loop: a bot whose name is new is registered under `NextId`, every bot message gets its name's id, other messages stay; AssignOneFacts states this |
| CharacterIds.AssignAll | src/assign_ids.py:236-254 | reference for the message loop of `assign_ids_in_file`, folding AssignOne over the messages; AssignIdsInFile computes it and the AssignAll lemmas state its messages, keys and new ids |
| CharacterIds.BotNamesMembers | src/assign_ids.py:239-240 | the bot names are exactly the author names of bot messages |
| CharacterIds.AssignOneFacts | src/assign_ids.py:239-254 | one message: a bot's name is registered afterwards, earlier entries keep their ids, and a bot message carries its name's id while other messages stay as they were |
| CharacterIds.AssignAllShape | src/assign_ids.py:236-254 | the pass keeps the message count, only appends characters, adds one map entry per new character and never changes an existing entry |
| CharacterIds.AssignAllKeys | src/assign_ids.py:243-248 | afterwards the map's names are the old ones plus every bot author name of the file |
| CharacterIds.AssignAllBotMessages | src/assign_ids.py:239-254 | every bot message gets `author.id == str(map[name])` |
| CharacterIds.AssignAllOtherMessages | src/assign_ids.py:239 | every message not written by a bot is untouched |
| CharacterIds.AssignAllKeepsMap | src/assign_ids.py:243-248 | a map built from the character list stays the map of the extended list |
| CharacterIds.AssignAllNewIds | src/assign_ids.py:243-248 | the j-th new character gets id `len(map) + j + 1`, a single new name, and the map entry for it |
| CharacterIds.Registry.constructor | src/assign_ids.py:104-116 | the registry starts with the loaded characters and their lookup map |
| CharacterIds.Registry.AssignIdsInFile | src/assign_ids.py:229-257 | the file's messages are rewritten, and the character list and the lookup map are updated in place, as the pass specifies; the map remains the map of the list |
| CharacterIds.NextIdCollides | src/assign_ids.py:244 | with alternates, `len(lookup_map) + 1` can be an id already in use |
| CharacterIds.MaxId | src/assign_ids.py:244 | an upper bound of every id in the map |
| CharacterIds.FreshId | src/assign_ids.py:244 | an id larger than every id in use |
| CharacterIds.IntendedAssignOne | src/assign_ids.py:18-19 | the step each bot with a unique id calls for: a new name is registered under FreshId instead of `len(lookup_map) + 1` |
| CharacterIds.IntendedAssignAll | src/assign_ids.py:18-19 | the intended pass over one file's messages |
| CharacterIds.IntendedAssignFresh | src/assign_ids.py:18-19 | the intended pass registers exactly the old names plus the bot names, keeps every old id, and gives each new name an id that no old name has and no other new name gets |
| UpdateInfo.CheckBaseStatus | src/update_info.py:31-52 | "running" gives AlreadyRunningError, "failed" gives DataNotReadyError, an unreadable status gives UpdateInfoError, and any other status passes |
| UpdateInfo.OverallStatus | src/update_info.py:59-68 | "success" iff every step succeeded; otherwise "failed" iff some step failed; otherwise "pending" |
| UpdateInfo.NoStepsIsSuccess | src/update_info.py:60-61 | no steps at all counts as success |
| UpdateInfo.FailedStepDominates | src/update_info.py:64-65 | a failed step makes the backup failed |
| UpdateInfo.SucceedingStepNeverWorsens | src/update_info.py:59-68 | a step turning successful never makes the status worse |
| UpdateInfo.RunningStepIsPending | src/update_info.py:67-68 | a running step keeps the backup pending while no other step failed |
| UpdateInfo.BackupInfo.CheckOverallStatus | src/update_info.py:55-72 | `status` becomes the overall status of the steps; nothing else changes |
| UpdateInfo.SceneCount | src/update_info.py:89-96 | a missing or unreadable scenes list counts as no scenes |
| UpdateInfo.WithSceneCount | src/update_info.py:100-102 | every category with the name gets the count; the others are unchanged |
| UpdateInfo.WithSceneCountIdempotent | src/update_info.py:100-102 | setting the count twice is setting it once, and names stay |
| UpdateInfo.BackupInfo.CountScenesInCategory | src/update_info.py:79-108 | with a category, every entry of that name gets the number of scenes; without one, the top-level count is set; nothing else changes |
| UpdateInfo.BackupInfo.constructor | src/update_info.py:57 | the loaded backup info fields |
| FixMessages.Current | src/fix_bad_messages.py:46-51 | the tests look at the fixed version when the id has one |
| FixMessages.ShouldRemove | src/fix_bad_messages.py:54-60 | removal iff type "Default", author id at least 100000 and content `^@[\w ]+$`; a "Default" message whose author id `int()` rejects raises ValueError |
| FixMessages.IsMentionOnly | src/fix_bad_messages.py:57-60 | `re.search(r"^@[\w ]+$", content)`: an `@` followed by one or more word characters or spaces to the end, the end allowing one trailing newline; ShouldRemove applies it |
| FixMessages.FirstIndex | src/fix_bad_messages.py:65 | `list.remove` removes the first element equal to the message, and fails when there is none |
| FixMessages.RemoveAt | src/fix_bad_messages.py:65 | removing shifts the later elements down by one |
| FixMessages.FixMessagesInChannel | src/fix_bad_messages.py:41-65 | the loop, which shrinks the list it walks, computes the pass as written |
| FixMessages.FixFrom | src/fix_bad_messages.py:41-65 | reference for the loop from position `i` on, with the iterator skipping the message that moves into a removed one's place; FixFromIsSub and FixFromRemovesOnlyRemovable state that it only removes, and only removable messages |
| FixMessages.Fixed | src/fix_bad_messages.py:41-65 | the whole pass, FixFrom from position 0; FixMessagesInChannel computes it and FixedSpec, NoFixesNeverFails and SkipAfterRemove state its result |
| FixMessages.FixFromIsSub | src/fix_bad_messages.py:43-65 | the pass only removes: the result is a subsequence of the input |
| FixMessages.FixFromRemovesOnlyRemovable | src/fix_bad_messages.py:54-65 | the result is a sub-multiset of the input, and only removable messages lose occurrences |
| FixMessages.FixedSpec | src/fix_bad_messages.py:41-65 | a successful pass is a subsequence that removes only mention-only human messages; character and non-"Default" messages always stay |
| FixMessages.NoFixesNeverFails | src/fix_bad_messages.py:54 | without fixed versions, a list whose "Default" messages all have integer author ids never fails |
| FixMessages.IntendedAgreesWhenNothingRemoved | src/fix_bad_messages.py:43-65 | without fixed versions and with no message to remove, the pass returns the list unchanged, as the intended pass does |
| FixMessages.SkipAfterRemove | src/fix_bad_messages.py:43-65 | of two mention-only messages in a row, the second is not examined and stays |
| FixMessages.FixedVersionIgnored | src/fix_bad_messages.py:51 | a fixed version never replaces the message in the list |
| FixMessages.RemovingFixedVersionFails | src/fix_bad_messages.py:51-65 | removing a fixed version that is not in the list raises ValueError |
| FixMessages.Replaced | src/fix_bad_messages.py:25-32 | every message in its fixed version |
| FixMessages.IntendedFixedFails | src/fix_bad_messages.py:25-32 | the intended pass fails exactly when a "Default" message has an unparsable author id |
| FixMessages.IntendedFixedSpec | src/fix_bad_messages.py:25-32 | the intended pass is a subsequence of the fixed versions, keeps no removable message and keeps every other one |
| FixMessages.IntendedFixed | src/fix_bad_messages.py:25-32 | the pass its description promises: every message replaced by its fixed version, then removed exactly when that passes the test; IntendedFixedSpec states its result and IntendedAgreesWhenNothingRemoved where it agrees with Fixed |
| Exceptions.Entry | src/exceptions.py:5 | `"Type: message"` |
| Exceptions.Entries | src/exceptions.py:4-6 | one entry per link, outermost first |
| Exceptions.Unwrap | src/exceptions.py:1-7 | the loop joins the entries of the chain with `" <- caused by <- "` |
| Exceptions.UnwrapSingle | src/exceptions.py:5-7 | one exception without a cause renders as its entry alone |
| Exceptions.UnwrapCause | src/exceptions.py:4-7 | an exception with causes renders as its entry, the separator, and the rendering of its causes |
| Exceptions.JoinLength | src/exceptions.py:7 | the rendering is as long as the entries together plus one separator between each two |
| Strings.Split | src/get_channel_list.py:126 | `str.split` gives at least one piece |
| Strings.JoinSplit | src/get_channel_list.py:126 | joining the pieces of a split gives the string back |
| Strings.SplitPiecesFree | src/get_channel_list.py:126 | no piece holds the separator |
| Strings.Strip | src/get_channel_list.py:134-136 | `str.strip()` removes exactly the leading and trailing white space |
| Strings.RemoveChar | src/get_channel_list.py:149 | `replace('*', '')` leaves no `*` and keeps every other character as many times as before |
| Strings.ParseIntOfIntToString | src/assign_ids.py:254 | `int(f"{n}")` is `n` |
| Strings.IntToStringInjective | src/assign_ids.py:254 | distinct ids give distinct strings |
| Sorting.SortBy | src/find_all_scenes.py:89 | sorting keeps the length and the multiset of elements |
| Sorting.SortBySorted | src/find_all_scenes.py:89 | the result is sorted by the key |
| Sorting.SortByStable | src/find_all_scenes.py:89 | the sort is stable |
| Sorting.SortBySortedIsIdentity | src/find_all_scenes.py:89 | a sorted list is left as it is |

## Left out

- The named exception classes the code raises (`AlreadyRunningError`, `DataNotReadyError`, `MergeError`, `AssignIDError`, `UpdateInfoError`, `GetChannelListError`, `CleanChannelListError`) are not defined in `src/exceptions.py`, which defines only `unwrap` and the `ChannelList…`/`ConsoleCommand…` exception classes. As written, each of those raises, and each `except` clause naming one of them once an exception reaches it, fails with AttributeError. The model gives each error path the named kind its code evidently means, as an `Exceptions.Error` value, and does not model the AttributeError.
- File and JSON I/O, `os.walk`/`os.scandir`/`os.listdir`/`os.rename`, and directory creation: loaded files and folder listings are parameters, and a rename replaces a name in a listing.
- Logging, the interactive menu, the command-line calls to the chat exporter and their batching, timing, and the orchestration functions. The status writes in their `finally` blocks are left out too. These are outside the modelled logic.
- `count_scenes_in_channel` and `count_scenes_in_thread` in `update_info.py`: orchestration around file reads.
- The per-character scene finder is a function parameter. Its per-character "resume id" result is ignored, as in the source. The `get_character_name` calls in the scene search (logging only) are left out.
- Configuration constants (the ignored categories, the tag switches, the server id and name) are parameters. The channel list's server id, name, `dates`, `status` and `steps` fields are not modelled.
- Timestamps are opaque integers ordered as the source compares them. Date arithmetic (`set_day_before`) is not modelled.
- `int()` is modelled for an optional sign and ASCII digits. Python also accepts surrounding white space, underscores and non-ASCII digits.
- `\w` is modelled as ASCII letters, digits and `_`. `str.isspace()` is modelled for the ASCII and Latin-1 white space characters. Full Unicode classes are not modelled.
- Dictionaries are modelled by the fields the core reads or writes. Equality in `list.remove` is therefore equality on those fields.
- A list that the source mutates in place and that no one else shares is modelled as a value the method returns (messages, categories, listings). Aliasing between such lists is not modelled.
- The `+ ""` in the main-status read of `assign_ids` and `merge_exports` raises TypeError for a non-string status. The model keeps statuses as strings, so that path is not modelled.
- `get_number_from_files` lists only the files directly in the category folder, so thread files in `Threads` are never read. The model has the same listing parameter and does not add them.
- CharacterIds.MaxId: a ghost function. It picks an arbitrary key of the map, which a compiled function cannot do.

## Findings

| source | as written | input that shows it | evidently intended | confidence | as-written member | corrected member |
|---|---|---|---|---|---|---|
| src/merge_exports.py:137-157 | `update_index` is set before the lookup, so when every update message matches it stays at the last index and `update[len-1:]` is appended again | history `[m]`, update `[m]` merges into `[m, m]` | append only the update messages that were not found (`update[matched:]`) | high; not executed | Merge.DuplicateExample | Merge.IntendedMergeShape |
| src/assign_ids.py:244 | a new bot gets `len(lookup_map) + 1`, which counts names, not ids; alternate names and extra names push the count past ids already in use | a character 1 "Bee" with an alternate 3 "Bee (older)": the map has 2 names, so the next bot gets 3, the alternate's id | a new bot gets an id no entry uses | high; not executed | CharacterIds.NextIdCollides | CharacterIds.IntendedAssignFresh |
| src/fix_bad_messages.py:43-65 | removing from the list being iterated shifts the next message into the current position, and the iterator skips it | two mention-only human messages in a row: the second stays | every mention-only human message is removed | high; not executed | FixMessages.SkipAfterRemove | FixMessages.IntendedFixedSpec |
| src/fix_bad_messages.py:51 | `message = fixed_messages[...]` rebinds the loop variable only, so the fixed version never reaches the list | a bad message with id 7 and a fixed version for 7: the list still holds the bad one | the message is replaced by its fixed version | high; not executed | FixMessages.FixedVersionIgnored | FixMessages.IntendedFixedSpec |
| src/fix_bad_messages.py:51-65 | a fixed version that is mention-only is removed by value, but the list holds the bad version, so `list.remove` raises ValueError | a bad "@Bee hi!" whose fixed version is "@Bee" | the fixed version is dropped and nothing raises | high; not executed | FixMessages.RemovingFixedVersionFails | FixMessages.IntendedFixedFails |
