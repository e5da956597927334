# NoCaml user-profile synchronisation, modelled in Dafny

NoCaml keeps SharePoint user profiles in step with several external sources.
Each source has a *loader* (`ProfileDataLoader`) that maps profile properties
to values computed from the source. A profile (`ProfileBase`) records, for
every property, which source last set it, when and by whom, together with a
short history (the *source log*). It also keeps a hash of each imported value
(the *hash log*) and the names of the properties changed since loading. A save
writes only the changed properties back to the profile store and queues the
audiences a written value may affect. A deduplicating stack of changed
audiences is drained to compile them. Batch and real-time runs decide which
loaders refresh which profiles. Audience definitions declared on the profile
class are reconciled against the audience store.

The project also models the smaller pieces of the same library that the
profile and list code depend on:

- the defaults that `FieldAttribute` and `ListAttribute` fill in;
- the enum display and parse rules and the `;#` multi-choice split of
  `ListDefinition`;
- the load-once component registry with its tag filter (`ComponentManager`).

Files and modules:

| file | module | models |
|---|---|---|
| wrappers.dfy | Wrappers | Option and Result |
| text.dfy | Text | the .NET string operations used: Split, Join, Trim, ToLower, Replace, Contains, splitting into lines |
| dates.dfy | Dates | dates at minute precision; the `yyyy-MM-dd HH:mm` format and its parse |
| dicts.dfy | Dicts | a .NET `Dictionary<string, V>` as a sequence of pairs with unique keys, in insertion order |
| source_log.dfy | SourceLogs | `SourceLog.cs`: the current codec and the loaders of the three line formats |
| profile_codecs.dfy | ProfileCodecs | the older source-log codec and the hash-log codec registered in `ProfileBase` |
| audience_queue.dfy | AudienceQueues | `AudienceCompilationQueue` and `CompileChangedAudiences` |
| profile_attributes.dfy | ProfileAttributes | the attribute records a profile class carries |
| profile.dfy | Profiles | `ProfileBase`: provenance bookkeeping, hashing, `SetIfChanged`, `Save` |
| loader.dfy | Loaders | `LoadablePropertyDetails`, the property cache and the merge rule of `UpdateProperty` |
| batch.dfy | Batch | `RunBatchUpdate` made sequential, `SelectProfilesToUpdate`, `ShouldUpdateInBatch`, `RunRealtimeUpdate` |
| audiences.dfy | Audiences | `AudienceManagerWrapper.EnsureAudiencesExist` (spec building and reconciliation) |
| attributes.dfy | Attributes | `FieldAttribute` and `ListAttribute` defaults |
| list_definition.dfy | ListDefinitions | `ListDefinition.ParseEnum`, `DisplayEnumValue` and the multi-choice text |
| components.dfy | Components | `ComponentManager` |

Objects whose fields the source changes in place are Dafny classes with
`modifies` clauses:

- the source log being loaded;
- the profile;
- the compilation queue and its drainer;
- a loader's property cache;
- the batch loaders and their counters;
- the update stamps;
- the audience store;
- the two attributes;
- the component manager.

Each of their methods is proved against a specification function over values.
The properties the source promises are lemmas about those functions.

Modelling decisions:

- **Two- and three-argument calls.** `UpdateProperty` calls
  `ImportedPropertyChanged` and `SetUpdated` with three arguments
  (`ProfileDataLoader.cs:132,149`). `ProfileBase` defines two-argument
  versions. The model follows `ProfileBase`: the hash log is keyed by
  property only, history entries written by `SetUpdated` carry no value or
  hash, and the extra arguments are ignored.
- **`DelayedNullableMappings`.** These are cached with
  `updateForNullSource = false` (`ProfileDataLoader.cs:100`), although the
  comment at line 27 says they run for a null source. The model follows the
  code. `Loaders.SecondaryNullSourceNoop` states the consequence: a secondary
  update with a null source changes nothing. The flags are the same as those
  of `DelayedMappings` at line 94, which looks like a copy slip; but nothing
  in the source settles what was meant, so it is not listed under Findings.
- **Raise-priority with a non-string value.** When a source raises priority
  on change but its value is not a string, the hash check is skipped
  (`ProfileDataLoader.cs:130`). The better-source test at lines 133-135 is
  then skipped too, so the value can overwrite one from a better source. The
  model keeps this; `Loaders.BetterSourceKept` states it.
- **Null and empty strings.** A null string is `""` where the source only
  tests `IsNullOrEmpty`. It is `None` where null and `""` behave differently:
  hash values, the rule tokens' contents, audience descriptions.
- **`InProcUpdates`.** Times are whole seconds (`int`).
- **Random order.** The random order of `SelectProfilesToUpdate` is a
  parameter `shuffled`: any permutation of the eligible logins.
- **Code as written.** Where a row of "## Findings" records a bug, the
  operations use the code as written: `Profile.Save` keeps the first history
  entries, the batch pick stamps lower-case keys, and the audience build
  throws on a filtered attribute after rules were switched off. The
  corrected definition and its proved property stand beside each.
- **Sequential model.** `EachParallel` is modelled one profile at a time.

## Model

| member | source | states |
|---|---|---|
| Text.Split | NoCaml/UserProfiles/SourceLog.cs:107 | String.Split on one character: at least one piece, two or more exactly when the character occurs, no piece contains it |
| Text.SplitJoin | NoCaml/UserProfiles/SourceLog.cs:107 | splitting on a character undoes joining pieces that do not contain it |
| Text.SplitLinesJoin | NoCaml/UserProfiles/SourceLog.cs:146 | splitting on "\r\n"/"\n" with empty entries removed returns the non-empty single lines that were joined with "\n" |
| Text.Trim | NoCaml/UserProfiles/SourceLog.cs:111 | the trimmed text neither starts nor ends with white space |
| Text.TrimIdempotent | NoCaml/UserProfiles/SourceLog.cs:111 | trimming twice is trimming once |
| Text.ReplaceRoundTrip | NoCaml/Attributes/FieldAttribute.cs:64 | replacing '_' by ' ' is undone by replacing ' ' by '_' when the text had no space |
| Text.SplitOnJoin | NoCaml/BaseClasses/ListDefinition.cs:96 | splitting on ";#" undoes joining with ";#" pieces that do not contain it |
| Text.FindFrom | NoCaml/BaseClasses/ListDefinition.cs:96 | the first occurrence of a separator at or after a position, or none |
| Dates.Parse | NoCaml/UserProfiles/SourceLog.cs:113 | a parsed date is a valid calendar date at minute precision, read only from text of the formatted shape |
| Dates.ParseFormat | NoCaml/UserProfiles/SourceLog.cs:21 | parsing the "yyyy-MM-dd HH:mm" text of a date returns that date truncated to the minute |
| Dates.FormatIsPlain | NoCaml/UserProfiles/SourceLog.cs:21 | a formatted date holds no '\|', no '<' and no line break, so it is one log column |
| Dicts.Get | NoCaml/UserProfiles/ProfileBase.cs:501-502 | a lookup succeeds exactly when the key is present |
| Dicts.Set | NoCaml/UserProfiles/SourceLog.cs:135 | indexer assignment: the key then maps to the value, other keys are unchanged, a new key is appended in order and keys stay unique, so a later line for a field wins |
| Dicts.Add | NoCaml/UserProfiles/ProfileBase.cs:368 | Dictionary.Add fails exactly when the key is present, and otherwise appends the pair |
| SourceLogs.LastN | NoCaml/UserProfiles/SourceLog.cs:22 | Reverse().Take(n).Reverse(): the min(n, length) most recent entries, in their original order |
| SourceLogs.FirstFit | NoCaml/UserProfiles/SourceLog.cs:31-46 | the cascade of retries never returns more than 2000 characters |
| SourceLogs.Serialize | NoCaml/UserProfiles/SourceLog.cs:12-47 | the serialized log is at most 2000 characters |
| SourceLogs.FirstFitKeepsDeepest | NoCaml/UserProfiles/SourceLog.cs:31-41 | the retries return the text with the largest history count that is shorter than 2000 |
| SourceLogs.FirstFitTruncates | NoCaml/UserProfiles/SourceLog.cs:42-46 | only when even the text without history is too long is it cut to its first 2000 characters |
| SourceLogs.SerializeKeepsDeepestFit | NoCaml/UserProfiles/SourceLog.cs:31-46 | Serialize keeps the largest history count k in 10..0 whose text is shorter than 2000 characters |
| SourceLogs.SourceLog.LoadReallyOldFormat | NoCaml/UserProfiles/SourceLog.cs:57-74 | a "field:source" line sets the field's entry with MinValue date, empty user and no history; a line without ':' changes nothing |
| SourceLogs.SourceLog.LoadOldFormat | NoCaml/UserProfiles/SourceLog.cs:75-104 | a line with fewer than 4 columns is skipped; a bad date fails; otherwise the entry with its history triples replaces the field's entry |
| SourceLogs.SourceLog.ReadOldHistory | NoCaml/UserProfiles/SourceLog.cs:89-98 | the history loop reads the triples from column 4 on, failing on the first unparseable date |
| SourceLogs.SourceLog.LoadCurrentFormat | NoCaml/UserProfiles/SourceLog.cs:105-137 | a line with fewer than 5 columns is skipped; a bad date fails; otherwise the entry with its history quintuples replaces the field's entry |
| SourceLogs.SourceLog.ReadCurrentHistory | NoCaml/UserProfiles/SourceLog.cs:121-132 | the history loop reads the quintuples from column 5 on, failing on the first unparseable date |
| SourceLogs.SourceLog.LoadLine | NoCaml/UserProfiles/SourceLog.cs:147-167 | a line with '<' is ignored; a '\|' line with "5" in column 5 is read as current format, any other '\|' line as old format, the rest as "field:source" |
| SourceLogs.SourceLog.Load | NoCaml/UserProfiles/SourceLog.cs:140-173 | empty text gives an empty log; otherwise the lines are applied in order and a parse failure on any line fails the whole load |
| SourceLogs.EntryLineShape | NoCaml/UserProfiles/SourceLog.cs:21-23 | every serialized line is one line with '\|' and no '<', and its fifth column is "5" |
| SourceLogs.EntryLineRoundTrip | NoCaml/UserProfiles/SourceLog.cs:21-23 | a serialized line reads back, in the current format, as its entry with trimmed texts, the date to the minute and the kept history |
| SourceLogs.LoadParsed | NoCaml/UserProfiles/SourceLog.cs:147-167 | loading the lines of a log whose texts hold no '\|', '<' or line break gives back the log, normalised |
| SourceLogs.LogRoundTrip | NoCaml/UserProfiles/SourceLog.cs:18-28 | for such a log, loading the serialized text with any history count gives back the same fields, trimmed sources and users, minute-precision dates and the most recent history entries |
| SourceLogs.CutLineLoads | NoCaml/UserProfiles/SourceLog.cs:105-167 | a history-free entry line cut at any length is never a parse failure: with four or more columns its date column is whole, and with fewer the line is skipped |
| SourceLogs.CutLinesLoad | NoCaml/UserProfiles/SourceLog.cs:140-173 | lines whose every prefix loads, joined on line breaks and cut anywhere, load without error |
| SourceLogs.CutLogLoads | NoCaml/UserProfiles/SourceLog.cs:42-46 | the history-free log cut at any length loads without error |
| SourceLogs.LogTextGrows | NoCaml/UserProfiles/SourceLog.cs:18-28 | keeping more history never makes the log text shorter |
| SourceLogs.SerializeTruncates | NoCaml/UserProfiles/SourceLog.cs:31-46 | when no history count gives a text under 2000 characters, the stored text is the history-free log cut at 2000 |
| SourceLogs.TruncatedStillLoads | NoCaml/UserProfiles/SourceLog.cs:42-46 | when the history-free log is 2000 characters or more, the stored text is its first 2000 characters, and loading it succeeds |
| SourceLogs.FirstFitPicks | NoCaml/UserProfiles/SourceLog.cs:31-46 | when the history-free text fits, the retries return one of the candidate texts unchanged |
| SourceLogs.SerializeLoads | NoCaml/UserProfiles/SourceLog.cs:12-47 | whatever the serializer stores for a plain log loads without error, truncated or not |
| ProfileCodecs.Kept | NoCaml/UserProfiles/ProfileBase.cs:326 | the history a line keeps: the first mh entries as written (Take), or the last mh as corrected |
| ProfileCodecs.OldSerialize | NoCaml/UserProfiles/ProfileBase.cs:318-347 | the older serializer as written, keeping the first mh history entries of each field; its text is at most 2000 characters |
| ProfileCodecs.OldSerializeNewest | NoCaml/UserProfiles/ProfileBase.cs:318-347 | the older serializer corrected to keep the last mh history entries; its text is at most 2000 characters |
| ProfileCodecs.OldSerializeKeepsDeepestFit | NoCaml/UserProfiles/ProfileBase.cs:335-346 | with either policy, it keeps the largest history count k in 5..0 whose text is shorter than 2000 characters |
| ProfileCodecs.LoadProfileLog | NoCaml/UserProfiles/ProfileBase.cs:254-317 | the profile's loader: '<' lines skipped, '\|' lines with fewer than 4 columns skipped, other lines without ':' skipped, "name:source" lines with MinValue date and empty user; a bad date fails |
| ProfileCodecs.OldEntryLineRoundTrip | NoCaml/UserProfiles/ProfileBase.cs:268-295 | a line the older serializer writes is read back by the profile's loader as its entry with the history written |
| ProfileCodecs.KeptLineRoundTrip | NoCaml/UserProfiles/ProfileBase.cs:268-330 | a line the older serializer writes for a field reads back with exactly the history entries it kept, under either policy |
| ProfileCodecs.OldSaveLosesNewest | NoCaml/UserProfiles/ProfileBase.cs:326 | as written, Take(mh) keeps the oldest entries: a field with more history than kept loses its most recent entry on a save and load |
| ProfileCodecs.OldSaveKeepsNewest | NoCaml/UserProfiles/ProfileBase.cs:326 | keeping the last mh entries instead, the most recent history entry survives a save and load |
| ProfileCodecs.OldLogRoundTrip | NoCaml/UserProfiles/ProfileBase.cs:253-347 | the older codec round-trips a plain log: the profile's loader reads back every field with the history the line kept, the first mh entries as written or the last mh as corrected |
| ProfileCodecs.HashLineEntry | NoCaml/UserProfiles/ProfileBase.cs:363-367 | a hash-log line yields an entry exactly when it holds ':' and no '<' |
| ProfileCodecs.LoadHashLog | NoCaml/UserProfiles/ProfileBase.cs:354-373 | the hash-log loader reads "name:hash" lines in order; a repeated name fails the load |
| ProfileCodecs.HashLogRoundTrip | NoCaml/UserProfiles/ProfileBase.cs:353-377 | loading the saved hash log gives back every property with its hash, a null hash read back as "" |
| AudienceQueues.RemoveFirst | NoCaml/UserProfiles/ProfileBase.cs:91 | List.Remove: an absent value leaves the list alone, a present one shortens it by one |
| AudienceQueues.RemoveFirstMultiset | NoCaml/UserProfiles/ProfileBase.cs:91 | List.Remove removes exactly one occurrence |
| AudienceQueues.PushedSpec | NoCaml/UserProfiles/ProfileBase.cs:85-95 | after Push(v) the queue holds no duplicates, v occurs once and is on top, and the other names are those held before |
| AudienceQueues.PushedKeepsOrder | NoCaml/UserProfiles/ProfileBase.cs:85-95 | Push keeps the relative order of the other names |
| AudienceQueues.LastPushedFirst | NoCaml/UserProfiles/ProfileBase.cs:59-95 | after Push X, Push Y, Push X the top is X and the next is Y |
| AudienceQueues.AudienceCompilationQueue.Pop | NoCaml/UserProfiles/ProfileBase.cs:73-83 | null on an empty queue; otherwise removes and returns the most recently pushed name |
| AudienceQueues.AudienceCompilationQueue.Push | NoCaml/UserProfiles/ProfileBase.cs:85-95 | the queue becomes the pushed queue of the specification |
| AudienceQueues.AudienceCompilationQueue.Count | NoCaml/UserProfiles/ProfileBase.cs:97 | the number of queued names |
| AudienceQueues.DrainCount | NoCaml/UserProfiles/ProfileBase.cs:125-131 | a drain pops at most max names and stops early only when the queue is empty |
| AudienceQueues.NewestSpec | NoCaml/UserProfiles/ProfileBase.cs:73-83 | the names drained are the queue read from the top down |
| AudienceQueues.AudienceCompiler.RecordChangedAudience | NoCaml/UserProfiles/ProfileBase.cs:105-108 | records an audience by pushing it |
| AudienceQueues.AudienceCompiler.CompileChangedAudiences | NoCaml/UserProfiles/ProfileBase.cs:117-144 | no-op while a drain is in progress; otherwise compiles the newest min(max, count) names from the top, removes exactly those and clears the flag |
| ProfileAttributes.NewAudience | NoCaml/UserProfiles/AudienceAttribute.cs:18-24 | a new audience attribute updates rules, combines them with "AND" and compares with Equal |
| ProfileAttributes.NewFilteredAudience | NoCaml/UserProfiles/AudienceAttribute.cs:25-30 | the filtered constructor sets the rule type and filter over those defaults |
| Profiles.GetHash | NoCaml/UserProfiles/ProfileBase.cs:561-577 | null for null or ""; otherwise eight hexadecimal digits |
| Profiles.GetHashDigest | NoCaml/UserProfiles/ProfileBase.cs:569-572 | the eight digits are the first four SHA-1 bytes in "X2" form, each readable back |
| Profiles.ReadHex2Inverse | NoCaml/UserProfiles/ProfileBase.cs:569 | "X2" formatting of a byte is read back as that byte |
| Profiles.CurrentSource | NoCaml/UserProfiles/ProfileBase.cs:501-505 | GetCurrentSource: null exactly when the field was never logged, otherwise its logged source |
| Profiles.UpdatedRecordsSetting | NoCaml/UserProfiles/ProfileBase.cs:513-557 | after SetUpdated the field's entry names the new source, time and user, a new entry is named after the field, and every other field's entry is unchanged |
| Profiles.UpdatedHistory | NoCaml/UserProfiles/ProfileBase.cs:520-544 | a new entry starts with empty history; an existing one keeps its five most recent history entries in order and appends its previous source, time and user, so the history has at most six entries |
| Profiles.UpdatedValid | NoCaml/UserProfiles/ProfileBase.cs:513-557 | SetUpdated keeps the log's keys unique and its dates valid |
| Profiles.Profile.DropOldest | NoCaml/UserProfiles/ProfileBase.cs:522-525 | the trimming loop leaves the five most recent history entries |
| Profiles.Profile.SetUpdated | NoCaml/UserProfiles/ProfileBase.cs:513-557 | the source log becomes the updated log, the field and "SourceLog" are added to the changed properties, nothing else changes |
| Profiles.Profile.ImportedPropertyChanged | NoCaml/UserProfiles/ProfileBase.cs:579-599 | true exactly when no hash is stored or the stored one differs; then the new hash is stored and "HashLog" is added; afterwards the hash is current, so an immediate repeat returns false |
| Profiles.ReloadedHashChanged | NoCaml/UserProfiles/ProfileBase.cs:579-599 | after the hash log is saved and reloaded, the same value counts as changed again only when it is null or "" |
| Profiles.Written | NoCaml/UserProfiles/ProfileBase.cs:662-679 | a required store property is never cleared by a null or empty value; any other value is written |
| Profiles.TriggeredSpec | NoCaml/UserProfiles/ProfileBase.cs:682-692 | an audience is queued exactly when its filter is empty, the old value contains it, the property is bool or the new string contains it |
| Profiles.PushAllSpec | NoCaml/UserProfiles/ProfileBase.cs:682-692 | queueing several audiences leaves a duplicate-free queue holding the old names and the new ones |
| Profiles.Profile.QueueAudiences | NoCaml/UserProfiles/ProfileBase.cs:682-692 | the audience loop pushes the triggered audiences in declaration order |
| Profiles.Profile.SetIfChanged | NoCaml/UserProfiles/ProfileBase.cs:640-694 | a property not in the changed list writes nothing; otherwise the write and queueing of the specification, or a failure that leaves store and queue unchanged |
| Profiles.SaveAllWritesChangedOnly | NoCaml/UserProfiles/ProfileBase.cs:643 | a store property whose profile property did not change keeps its value through Save |
| Profiles.SaveAllFails | NoCaml/UserProfiles/ProfileBase.cs:657-662 | the save loop fails exactly when a changed property's store property is missing |
| Profiles.SaveAllQueueUnique | NoCaml/UserProfiles/ProfileBase.cs:682-692 | the queue stays duplicate-free through Save |
| Profiles.Profile.Save | NoCaml/UserProfiles/ProfileBase.cs:702-728 | no-op with no changed properties; otherwise writes the changed properties, the source log through the serializer as written (first mh history entries), and clears the changed list only when every write, the custom save and the commit succeed, and keeps it otherwise |
| Profiles.StoredText | NoCaml/UserProfiles/ProfileBase.cs:256 | reading a log needs a store property holding a string or null |
| Profiles.LoadLogsValid | NoCaml/UserProfiles/ProfileBase.cs:253-377 | loaded source and hash logs have unique keys and valid dates |
| Profiles.Profile.Load | NoCaml/UserProfiles/ProfileBase.cs:489-495 | loading a profile reads both logs from the store and starts with no changed properties, failing when either log fails to load |
| Loaders.FirstSource | NoCaml/UserProfiles/ProfileDataLoader.cs:57 | the first source attribute naming this loader, null exactly when none does |
| Loaders.BetterSources | NoCaml/UserProfiles/ProfileDataLoader.cs:64 | exactly the sources with a strictly smaller order, so ties are not better |
| Loaders.NewDetails | NoCaml/UserProfiles/ProfileDataLoader.cs:50-71 | a loader is a valid source exactly when the property names it; a valid details record copies raise-priority and use-if-empty from its attribute and has the better sources above |
| Loaders.OwnSourceNotBetter | NoCaml/UserProfiles/ProfileDataLoader.cs:56-64 | with one attribute per source, the loader is never among its own better sources |
| Loaders.ValidProperties | NoCaml/UserProfiles/ProfileDataLoader.cs:80-84 | only properties that name this source are cached |
| Loaders.AddDetailsSpec | NoCaml/UserProfiles/ProfileDataLoader.cs:80-84 | adding a mapping dictionary succeeds exactly when no valid property repeats, and appends the valid properties in order |
| Loaders.ProfileDataLoader.AddAllDetails | NoCaml/UserProfiles/ProfileDataLoader.cs:80-84 | the loop over one mapping dictionary computes the specification |
| Loaders.CachedDetailsKeys | NoCaml/UserProfiles/ProfileDataLoader.cs:77-106 | the cache holds the valid properties of the four dictionaries in order, and building it fails exactly when one repeats |
| Loaders.CachedDetailsFlags | NoCaml/UserProfiles/ProfileDataLoader.cs:77-106 | plain mappings run in the primary update without null source; nullable ones also for a null source; both delayed kinds only in the secondary update and never for a null source |
| Loaders.ProfileDataLoader.UpdateCachedDetails | NoCaml/UserProfiles/ProfileDataLoader.cs:77-106 | the cache is replaced only when built completely; a duplicate leaves it as it was |
| Loaders.ProfileDataLoader.UpdateProperty | NoCaml/UserProfiles/ProfileDataLoader.cs:109-151 | the profile becomes the merge rule's update |
| Loaders.UpdateWithSpec | NoCaml/UserProfiles/ProfileDataLoader.cs:109-151 | the hash is recorded whenever it is checked and changed, even when the write is skipped; a write sets the value and calls SetUpdated once; nothing else changes |
| Loaders.BetterSourceKept | NoCaml/UserProfiles/ProfileDataLoader.cs:119-136 | without raise-priority, a field set by a better source is never touched; with it, it is overwritten only when the hash changed or the value is not a string |
| Loaders.ListNeverReplacesList | NoCaml/UserProfiles/ProfileDataLoader.cs:144 | a string list never overwrites a string list, since both ToString to the type name |
| Loaders.UpdateIdempotent | NoCaml/UserProfiles/ProfileDataLoader.cs:109-151 | merging the same value twice changes nothing the second time |
| Loaders.UpdateOthersUnchanged | NoCaml/UserProfiles/ProfileDataLoader.cs:109-151 | merging one property leaves every other property's value, source-log and hash-log entry unchanged |
| Loaders.UpdateAllOthersUnchanged | NoCaml/UserProfiles/ProfileDataLoader.cs:229-232 | a profile update leaves alone every property the pass does not visit |
| Loaders.SecondaryNullSourceNoop | NoCaml/UserProfiles/ProfileDataLoader.cs:115 | a secondary update with a null source changes nothing, since no delayed mapping updates for a null source |
| Loaders.ProfileDataLoader.constructor | NoCaml/UserProfiles/ProfileDataLoader.cs:31-37 | a new loader has four empty mapping dictionaries and no cache |
| Loaders.ProfileDataLoader.UpdateProfile | NoCaml/UserProfiles/ProfileDataLoader.cs:215-232 | builds the cache once if missing, then merges every cached property of the requested pass, in cache order |
| Batch.StampSpec | NoCaml/UserProfiles/ProfileDataLoader.cs:797-801 | stamping sets every given key to now and leaves every other key as it was |
| Batch.UpdateStamps.ResetUpdateFlags | NoCaml/UserProfiles/ProfileDataLoader.cs:417-420 | after a reset every profile is expired for every source |
| Batch.UpdateStamps.StampAll | NoCaml/UserProfiles/ProfileDataLoader.cs:797-801 | the stamping loop computes the stamping specification |
| Batch.IndexKeys | NoCaml/UserProfiles/ProfileDataLoader.cs:513 | each login's index key is its trimmed lower-case form |
| Batch.BuildLanIdIndex | NoCaml/UserProfiles/ProfileDataLoader.cs:508-517 | every non-empty login's key is indexed, and each key maps to the first profile with that key |
| Batch.IndexByKey | NoCaml/UserProfiles/ProfileDataLoader.cs:510-516 | the loop indexes the first occurrence of each key of the non-empty logins |
| Batch.EligibleOf | NoCaml/UserProfiles/ProfileDataLoader.cs:790-791 | exactly the valid logins not stamped by this source within its expiry |
| Batch.BatchLoader.SelectProfilesToUpdate | NoCaml/UserProfiles/ProfileDataLoader.cs:783-804 | null for a spread count of 0 or int.MaxValue; otherwise the first spread-count logins of the random order, lower-cased; each is stamped under its lower-case key, as written, so a picked login with capitals is still eligible afterwards |
| Batch.PickedMixedCaseStaysEligible | NoCaml/UserProfiles/ProfileDataLoader.cs:789-801 | after the lower-case stamping, every picked login that lower-casing changes is still eligible at the same time |
| Batch.SelectedAreEligible | NoCaml/UserProfiles/ProfileDataLoader.cs:789-801 | corrected to stamp the key it tests: a pick has min(count, eligible) profiles, each valid and eligible, and after stamping none is eligible again before its expiry |
| Batch.StampAsWrittenMissesMixedCase | NoCaml/UserProfiles/ProfileDataLoader.cs:791-800 | as written, a login with capitals is stamped under its lower-case key and so stays eligible |
| Batch.PickedShouldUpdate | NoCaml/UserProfiles/ProfileDataLoader.cs:828-836 | without bulk data, a profile is updated in the batch exactly when it is valid and its lower-case login was picked |
| Batch.BatchLoader.Initialize | NoCaml/UserProfiles/ProfileDataLoader.cs:521-537 | a loader whose bulk load throws stays uninitialised; otherwise it records bulk availability and its pick, stamps the picked logins under their lower-case keys, and becomes initialised; with a spread count of 0 or int.MaxValue it picks nothing and leaves every stamp unchanged |
| Batch.ActiveLoaders | NoCaml/UserProfiles/ProfileDataLoader.cs:539 | exactly the initialised loaders with bulk data or a positive spread count, in order |
| Batch.Exporters | NoCaml/UserProfiles/ProfileDataLoader.cs:541 | exactly the initialised loaders, in order |
| Batch.DelayedLoaders | NoCaml/UserProfiles/ProfileDataLoader.cs:624 | exactly the active loaders that need a secondary update |
| Batch.LoaderFilters | NoCaml/UserProfiles/ProfileDataLoader.cs:539-624 | every active loader exports, and every delayed loader is active |
| Batch.GrewFlags | NoCaml/UserProfiles/ProfileDataLoader.cs:566-569 | a loader counts as updating the profile exactly when it ran and the changed count rose above the last count seen |
| Batch.UpdateOneProfile | NoCaml/UserProfiles/ProfileDataLoader.cs:548-611 | the profile is saved exactly when some run loader raised the changed count; each loader's checked counter rises once per run and its updated counter once per rise |
| Batch.CountPass | NoCaml/UserProfiles/ProfileDataLoader.cs:550-570 | the per-loader loop computes the save flag and the counter increments |
| Batch.SaveIffAnyChanged | NoCaml/UserProfiles/ProfileDataLoader.cs:601-611 | the profile is saved exactly when some loader that ran left a non-zero changed count |
| Batch.RunRealtimeUpdate | NoCaml/UserProfiles/ProfileDataLoader.cs:454-475 | the loop saves and stamps exactly as the real-time specification says |
| Batch.RealtimeFreshens | NoCaml/UserProfiles/ProfileDataLoader.cs:461-466 | after a real-time update every loader that updated a valid profile has a fresh stamp for it |
| Batch.RealtimeMonotone | NoCaml/UserProfiles/ProfileDataLoader.cs:466 | stamps are only ever kept or set to now |
| Batch.FreshSavesNothing | NoCaml/UserProfiles/ProfileDataLoader.cs:461 | with every loader's stamp fresh, a real-time update saves nothing |
| Batch.RealtimeOncePerExpiry | NoCaml/UserProfiles/ProfileDataLoader.cs:454-475 | a second real-time update at the same time saves nothing: each source refreshes a profile at most once per expiry |
| Audiences.RuleOf | NoCaml/UserProfiles/AudienceManagerWrapper.cs:175-180 | a rule's left is the storage name and its right the filter; its operator is "=" exactly for Equal, "<>" otherwise |
| Audiences.NewSpec | NoCaml/UserProfiles/AudienceManagerWrapper.cs:164-170 | the first attribute seen gives the audience its name, description and operator; rules are null when it does not update rules |
| Audiences.PairsOf | NoCaml/UserProfiles/AudienceManagerWrapper.cs:148-159 | a property without a storage attribute contributes nothing |
| Audiences.FirstFor | NoCaml/UserProfiles/AudienceManagerWrapper.cs:162-171 | the first attribute naming an audience |
| Audiences.AddAttributeGet | NoCaml/UserProfiles/AudienceManagerWrapper.cs:162-183 | one attribute changes only its own audience, creating it if new and adding a rule only for a non-empty filter |
| Audiences.BuildSpecsSpec | NoCaml/UserProfiles/AudienceManagerWrapper.cs:141-189 | one spec per audience name, settings from the first attribute, and the rules of every filtered attribute in order, unless the first disabled rules |
| Audiences.SpecsKeyedByName | NoCaml/UserProfiles/AudienceManagerWrapper.cs:162-166 | each spec is stored under its own name |
| Audiences.AsWrittenAgrees | NoCaml/UserProfiles/AudienceManagerWrapper.cs:169-182 | whenever the code as written does not throw, it builds the same specs as the corrected building |
| Audiences.RulesOffThenFilterThrows | NoCaml/UserProfiles/AudienceManagerWrapper.cs:169-182 | as written, a filtered attribute after a first one with UpdateRules=false adds to a null list and throws |
| Audiences.AudienceManager.CollectSpecs | NoCaml/UserProfiles/AudienceManagerWrapper.cs:143-188 | the nested loops build the specs as written, failing exactly when a filtered attribute meets an audience whose rules are null (line 182) |
| Audiences.AudienceManager.AddProperty | NoCaml/UserProfiles/AudienceManagerWrapper.cs:158-185 | the inner loop adds one property's attributes in order as written, and fails at the first one that adds to a null rule list |
| Audiences.FailureSticks | NoCaml/UserProfiles/AudienceManagerWrapper.cs:182 | once the as-written build has thrown, no later attribute changes the outcome |
| Audiences.GroupOperation | NoCaml/UserProfiles/AudienceManagerWrapper.cs:225 | 1 exactly for "OR", 2 for anything else |
| Audiences.Interleave | NoCaml/UserProfiles/AudienceManagerWrapper.cs:283-287 | n rules become 2n-1 tokens: rule i at position 2i, and the group operator token (null, op, null) at every odd position |
| Audiences.InterleaveMatches | NoCaml/UserProfiles/AudienceManagerWrapper.cs:256-287 | a rebuilt token list has no removed and no missing rule against its own rules |
| Audiences.FindRemoved | NoCaml/UserProfiles/AudienceManagerWrapper.cs:256-264 | finds a stored rule with a left content that no spec rule matches |
| Audiences.FindMissing | NoCaml/UserProfiles/AudienceManagerWrapper.cs:267-275 | finds a spec rule that no stored token matches |
| Audiences.RebuildRules | NoCaml/UserProfiles/AudienceManagerWrapper.cs:277-288 | the rebuild loop produces r1, (null, op, null), r2, … |
| Audiences.ReconcileSettles | NoCaml/UserProfiles/AudienceManagerWrapper.cs:211-299 | an audience that was changed agrees with its spec afterwards |
| Audiences.SettledCommitsNothing | NoCaml/UserProfiles/AudienceManagerWrapper.cs:295-299 | specs the store already agrees with commit and compile nothing and change nothing |
| Audiences.ReconcileAllOthers | NoCaml/UserProfiles/AudienceManagerWrapper.cs:211-301 | audiences not named by any spec are untouched |
| Audiences.ReconcileAllSettles | NoCaml/UserProfiles/AudienceManagerWrapper.cs:211-301 | after reconciling distinct specs the store agrees with all of them |
| Audiences.ReconcileTwiceCommitsOnce | NoCaml/UserProfiles/AudienceManagerWrapper.cs:196-304 | a second call with the same specs performs no commit and no compile |
| Audiences.ListedAgreesWhenDistinct | NoCaml/UserProfiles/AudienceManagerWrapper.cs:199-214 | with distinct spec names, looking names up in the list taken before the loop reconciles exactly as looking them up in the live store |
| Audiences.RepeatedUnlistedCommitsTwice | NoCaml/UserProfiles/AudienceManagerWrapper.cs:199-221 | two specs under a name absent before the loop are both created and committed, where a live lookup would commit once |
| Audiences.AudienceManager.EnsureAudience | NoCaml/UserProfiles/AudienceManagerWrapper.cs:211-301 | one audience, looked up among the names listed before the loop and otherwise created: written back and committed exactly when the reconciliation changed it |
| Audiences.AudienceManager.EnsureAudiencesExist | NoCaml/UserProfiles/AudienceManagerWrapper.cs:196-304 | the store and the commits are those of reconciling the specs in order against the audience list taken once before the loop |
| Audiences.AudienceManager.EnsureAudiencesExistFor | NoCaml/UserProfiles/AudienceManagerWrapper.cs:141-189 | throws exactly when the as-written build throws, leaving the store and the commits unchanged; otherwise the profile class's specs are reconciled with rule updates on |
| Audiences.SpecsDistinct | NoCaml/UserProfiles/AudienceManagerWrapper.cs:162 | the built specs have distinct names, so the settling lemmas apply to them |
| Attributes.DefaultFieldType | NoCaml/Attributes/FieldAttribute.cs:72-115 | string and Uri give Text, int and double Number, string lists and arrays Choice, dates DateTime, enums Choice, bool Boolean, anything else stays Invalid |
| Attributes.EnumChoices | NoCaml/Attributes/FieldAttribute.cs:120-122 | one choice per member, in declaration order, each its display text |
| Attributes.FieldDefaultsKeepExplicit | NoCaml/Attributes/FieldAttribute.cs:62-72 | an explicit display name, internal name or type is never overwritten |
| Attributes.FieldDefaultNames | NoCaml/Attributes/FieldAttribute.cs:62-70 | the internal name defaults to the property name and the display name to it with '_' shown as ' ' |
| Attributes.EnumFieldChoicesParse | NoCaml/Attributes/FieldAttribute.cs:117-124 | a Choice or MultiChoice enum field offers every member, and each member's offered text parses back to it |
| Attributes.FieldDefaultsIdempotent | NoCaml/Attributes/FieldAttribute.cs:60-128 | filling in defaults twice is filling them in once |
| Attributes.FieldAttribute.constructor | NoCaml/Attributes/FieldAttribute.cs:49-53 | a new field attribute maps automatically and has nothing else set |
| Attributes.FieldAttribute.UpdateWithDefaults | NoCaml/Attributes/FieldAttribute.cs:60-128 | the settings become the defaults of the specification |
| Attributes.ListDefaults | NoCaml/Attributes/ListAttribute.cs:43-55 | explicit values are kept; an empty URL becomes "Lists/" followed by the type name and an empty display name the type name |
| Attributes.ListDefaultsIdempotent | NoCaml/Attributes/ListAttribute.cs:43-55 | a second call changes nothing |
| Attributes.ListAttribute.constructor | NoCaml/Attributes/ListAttribute.cs:34-37 | a new list attribute declares a generic list |
| Attributes.ListAttribute.UpdateWithDefaults | NoCaml/Attributes/ListAttribute.cs:43-55 | the settings become the list defaults |
| ListDefinitions.DisplayEnumValue | NoCaml/BaseClasses/ListDefinition.cs:44-52 | the choice display name if there is one, else the member name with '_' shown as ' ' |
| ListDefinitions.ParseName | NoCaml/BaseClasses/ListDefinition.cs:34 | the first member whose name equals the text ignoring case, or none |
| ListDefinitions.ParseChoice | NoCaml/BaseClasses/ListDefinition.cs:37-41 | the first member whose choice display name equals the text ignoring case, or none |
| ListDefinitions.ParseEnum | NoCaml/BaseClasses/ListDefinition.cs:30-42 | null for empty text; the named member when the text with spaces as '_' is exactly a member name; else the choice-name match |
| ListDefinitions.DisplayParseRoundTrip | NoCaml/BaseClasses/ListDefinition.cs:34-50 | a member without a choice attribute parses back from its display text, when no two names differ only by case |
| ListDefinitions.SplitMultiChoice | NoCaml/BaseClasses/ListDefinition.cs:96 | splitting on ";#" drops empty pieces |
| ListDefinitions.SplitJoinMultiChoice | NoCaml/BaseClasses/ListDefinition.cs:175 | splitting the ";#" join of non-empty choices without ";#" gives the choices back, the empty list included |
| Components.DefinitionsOf | NoCaml/ComponentManager.cs:37-51 | exactly the definitions of the non-abstract types deriving from the kind's base, in type order |
| Components.ForTags | NoCaml/ComponentManager.cs:61 | a definition is offered exactly when it shares a tag, no tags are given or it declares none, and it does not exist yet |
| Components.ForTagsAppend | NoCaml/ComponentManager.cs:61 | the filter keeps the loaded order: the result is a subsequence |
| Components.ForNoTags | NoCaml/ComponentManager.cs:61 | with no tags, every definition that does not exist is offered |
| Components.FirstWithId | NoCaml/ComponentManager.cs:67 | the first definition with the ID, or null |
| Components.FindsDeclaredType | NoCaml/ComponentManager.cs:64-68 | every declared type's definition is found by its full name |
| Components.ComponentManager.EnsureItemsLoaded | NoCaml/ComponentManager.cs:26-56 | loads the three lists unless all are loaded; later calls change nothing, whatever types they pass |
| Components.ComponentManager.GetForTags | NoCaml/ComponentManager.cs:58-62 | GetWebPartsForTags and its page and section variants: the tag filter over the loaded list |
| Components.ComponentManager.GetDefinition | NoCaml/ComponentManager.cs:64-68 | GetWebPartDefinition and its page and section variants: the first loaded definition with the ID |

## Left out

- Audiences.AudienceManager.EnsureAudiencesExist: a second spec under a name that was absent before the loop calls the store's `Create` again; the store (SharePoint) is not part of this model, so that `Create` is modelled as replacing the audience the first spec created, not as whatever the store does with a duplicate name. The only caller passes specs with distinct names, where this never happens (`Audiences.ListedAgreesWhenDistinct`).
- SourceLogs.Serialize, SourceLogs.FirstFit, SourceLogs.FirstFitKeepsDeepest, SourceLogs.FirstFitTruncates, SourceLogs.SerializeKeepsDeepestFit, SourceLogs.SerializeTruncates, SourceLogs.TruncatedStillLoads, SourceLogs.SerializeLoads, ProfileCodecs.OldSerialize, ProfileCodecs.OldSerializeNewest and ProfileCodecs.OldSerializeKeepsDeepestFit count length in characters (Unicode scalar values), where `String.Length` and `Substring(0, 2000)` count UTF-16 code units. For text with a character outside the Basic Multilingual Plane, such as an emoji in a login or value, the source measures each such character as 2. It can then keep fewer history entries than the model, and it can cut a surrogate pair in half where the model cuts at a whole character. Texts of Basic Multilingual Plane characters only are measured the same in both.
- Batch.BatchLoader.SelectProfilesToUpdate and Batch.BatchLoader.ShouldUpdateInBatch assume every login is non-null. A login is a `string`, and the null login is modelled as `""`. In the source, `p.LanID.ToLower()` throws on a null login (`ProfileDataLoader.cs:794`, `833`). At line 794 the loader then stays uninitialised, because the exception is caught at line 531. At line 833 the loader's batch step for that profile is lost, caught at line 572. The model lower-cases `""` and picks it without failing. The index itself skips null logins (`ProfileDataLoader.cs:512`, `Batch.BuildLanIdIndex`).
- Concurrency: `EachParallel` and the `lock` blocks with their double checks are left out. Everything runs one profile and one drain at a time.
- Randomness, clocks and the current user are parameters: the random order, `DateTime.Now` and the SharePoint login.
- SHA-1 is a function parameter `sha1` from text to four bytes.
- Dates.Parse: reads only the `yyyy-MM-dd HH:mm` form the serializers write, with surrounding white space trimmed. `DateTime.Parse` accepts many more forms; any other text fails here.
- Reflection over SharePoint and Office Server types is left out: the property load conversions, `EnsurePropertiesExist`, `UpdateContextProfile`, `GetAudiences`, `ClearInvalidLanId`, `CompileAudience` and the audience job calls.
- The audience store is a map from name to description, group operation and rule tokens. A commit is the audience's name appended to a list of commits, which stands for Commit followed by CompileAudience.
- Renaming, obsoleting and deleting audiences are left out; no shown code uses them.
- Loader behaviour that the orchestration only observes is given as inputs: LoadBulkData's result (None when it throws), `UpdateProfileIndexes`, and the changed-property count after each loader's update. A loader whose update throws is one whose count does not rise. `ShouldUpdateInSecondaryUpdate` is a predicate that cannot throw; in the source it is called outside the `try` (`ProfileDataLoader.cs:638`), so a throw there would end the whole secondary pass, and that is not modelled.
- Batch.UpdateOneProfile: it does not model `ShouldExport`, `AddExportRow`, `WriteExportFile` or `LoadIncrementalData`. These are export and logging hooks with no effect on the profile.
- Batch.BatchLoader.ShouldUpdateInBatch is modelled as written. `PickedShouldUpdate` covers the pick-based case; the invalid-profile, int.MaxValue and bulk-data cases are read directly off its definition.
- Counters such as `ProfilesChecked` are unbounded integers. The 32-bit wrap-around after 2^31 increments is not modelled.
- Components.ComponentManager.GetForTags: `Exists` is a live query of the site, given as the set of existing IDs.
- The static lists are one manager object. Instantiating definitions by reflection is reduced to the type's full name and filter tags.
- ListDefinitions.ParseName: takes the first match in declaration order. `Enum.Parse` with ignoreCase may pick another member when two names differ only by case; `DisplayParseRoundTrip` excludes that case.
- `LoadProperties`, `SaveProperties`, `Save` and `Delete` of `ListDefinition` are SharePoint item glue and are left out. Only the `;#` split and join they use are modelled.
- As written, `SaveProperties` stores the `;#` join back into the property instead of the list item (`ListDefinition.cs:175-176`). This is left out with the rest of `SaveProperties`.
- `FieldAttribute` settings that `UpdateWithDefaults` never touches are left out: default value, edit type, required, lookups and multi-value.
- The obsolete `UpdateProperty` (`ProfileDataLoader.cs:154-208`) and `SetIfChanged(pi, fval)` are superseded and not modelled.
- Logging callbacks and the debug trace are not modelled.
- Batch.IndexKeys, Batch.Lowered, Batch.BatchLoader.ShouldUpdateInBatch, ListDefinitions.ParseName, ListDefinitions.ParseChoice and every `Trim` in the log loaders use `Text.ToLower`, `Text.EqualsIgnoreCase` and `Text.IsWhiteSpace`. These fold only A-Z and know only the ASCII and Latin-1 white space. Non-ASCII and culture-specific case folding (`ToLower()` under the current culture) and the Unicode space separators that .NET's `Trim` removes are not modelled.

## Findings

| source | as written | input that shows it | evidently intended | confidence | as-written member | corrected member |
|---|---|---|---|---|---|---|
| NoCaml/UserProfiles/ProfileBase.cs:326 | the older serializer keeps `SourceLogHistory.Take(mh)`, the oldest entries, while `SetUpdated` appends the newest at the end | a field with 6 history entries saved when only 5 fit: the sixth, most recent entry is dropped and does not come back on load | keep the most recent entries, as `SourceLog.cs:22` does with Reverse().Take().Reverse() | not executed | ProfileCodecs.OldSaveLosesNewest | ProfileCodecs.OldSaveKeepsNewest |
| NoCaml/UserProfiles/ProfileDataLoader.cs:791 | the eligibility test looks up `SourceName\|LanID`, but line 800 stamps `SourceName\|lower(LanID)` | login "DOMAIN\\Ann" picked at time 0: the stamp is under "Directory\|domain\\ann", so the key "Directory\|DOMAIN\\Ann" is still expired | stamp and test the same key, so a picked profile is not picked again within the expiry | not executed | Batch.StampAsWrittenMissesMixedCase | Batch.SelectedAreEligible |
| NoCaml/UserProfiles/AudienceManagerWrapper.cs:182 | when the first attribute for an audience has `UpdateRules = false`, Rules is null (line 169), and a later filtered attribute adds to it and throws | attributes "Sales" with UpdateRules=false and then "Sales" Equal "Sales" on the same property | an audience whose rules are not managed collects no rules | not executed | Audiences.RulesOffThenFilterThrows | Audiences.BuildSpecsSpec |
