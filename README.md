# OpenCTI file index manager and filter/marking helpers, modelled in Dafny

This project models four pieces of the OpenCTI platform and proves properties about them.

- **File index manager** (`opencti-graphql/src/manager/fileIndexManager.ts`), split into three modules:
  - `FileIndexSelection`: which stored files are indexed (size limit and MIME allow-list), and which internal id each one gets. An already-indexed file keeps its id; any other file takes a fresh one.
  - `FileIndexStream`: which stream events make the manager re-propagate an entity's access restrictions to its indexed files.
  - `FileIndexManager`: the closure state shared by the scheduled indexing handler and the stream handler. This covers the `running` and `shutdown` flags, the held stream processor and the interval timers, plus `status` and `shutdown`. A ghost effect log records the steps that change shared state or the outside world: a lock obtained or released, `running` set, the bulk index, the status save, and the stream processor created, started, waited on and shut down. Reads (the settings, the last indexed date, the listing, the search, the content) and calls that fail before changing anything (a refused lock, a failed `start`) are inputs and leave no entry. Lemmas read the log to show what holds at every exit:
    - the locks held;
    - `running`;
    - the processor.
- **Filter utilities** (`FiltersUtils`, from `filtersUtils.tsx`):
  - single-valued keys;
  - the search for a filter by key and optional operator;
  - adding an `entity_type` filter to a group;
  - the group emptiness test;
  - the label of a filter value.
- **Displayed filters** (`FiltersElement`, from `FiltersElement.tsx`): the entries the filter panel offers.
- **Marking picker** (`ObjectMarkingField`, from `ObjectMarkingField.tsx`), three parts:
  - the order of the options;
  - the rank-conflict detector;
  - the pending change held for confirmation. Its state is a class whose methods are specified by step functions; lemmas state what a confirm, cancel or close does.

`Js` holds the few JavaScript notions the code relies on:
- `undefined`/`null`/string slots and their truthiness;
- string `<`, with proofs that it is a strict total order;
- the ASCII part of `toUpperCase`.

Collaborators that cannot be seen are inputs, not models:
- **lock**: whether the lock was obtained;
- **storage**: where a storage call throws, if anywhere: before the bulk index, or in `saveFileIndexStatus` after it;
- **listing and search**: their answers;
- **`generateInternalId`**: a supply `nat -> string`, where argument n is its n-th call;
- **`getFileContent`**: a function of the file id;
- **stream processor**: how many times it reports itself running;
- **`handleStreamEvents` reloads**: which reload throws.

Two behaviours of the code are worth stating up front:
- `fileIndexHandler` has no `catch` (fileIndexManager.ts:140-155): a lock failure or a failing collaborator leaves the handler as an exception, after its `finally` block ran.
- The restriction trigger of the stream handler accepts any update that has files and a patch (see Findings).

## Model

| member | source | states |
|---|---|---|
| FileIndexSelection.SelectFiles | opencti-platform/opencti-graphql/src/manager/fileIndexManager.ts:49-53 | With an empty MIME list every listed file is kept (no size check). Otherwise a file is kept iff its size (missing counts as 0) is at most the limit, it has a non-empty mimetype, and that mimetype is in the list. |
| FileIndexSelection.EligibleMembership | opencti-platform/opencti-graphql/src/manager/fileIndexManager.ts:50-52 | The filter keeps exactly the listed files that pass the eligibility test. |
| FileIndexSelection.FilterEligibleAppend | opencti-platform/opencti-graphql/src/manager/fileIndexManager.ts:50-52 | Filtering distributes over concatenation, so kept files keep their relative order. |
| FileIndexSelection.SelectSingle | opencti-platform/opencti-graphql/src/manager/fileIndexManager.ts:49-53 | With a non-empty MIME list, one file survives exactly when it is eligible. |
| FileIndexSelection.FindExisting | opencti-platform/opencti-graphql/src/manager/fileIndexManager.ts:67 | `find` by file id gives nothing iff no record has that file id. Otherwise it gives the record at the first such index. |
| FileIndexSelection.FindExistingFirst | opencti-platform/opencti-graphql/src/manager/fileIndexManager.ts:67 | The record found is the one at the first index that carries the file id. |
| FileIndexSelection.ResolveIds | opencti-platform/opencti-graphql/src/manager/fileIndexManager.ts:66-77 | Id resolution gives exactly one entry per eligible file. |
| FileIndexSelection.ResolveIdsAt | opencti-platform/opencti-graphql/src/manager/fileIndexManager.ts:66-77 | Entry i holds file i's id, entity id, name and date. Its internal id is that of the first existing record with the file id; failing that, it is the fresh id numbered by the earlier files that had no record. |
| FileIndexSelection.AllExistingMintsNothing | opencti-platform/opencti-graphql/src/manager/fileIndexManager.ts:67-68 | When every file already has a record, no fresh id is generated and every internal id is a reused one. |
| FileIndexSelection.RerunReusesIds | opencti-platform/opencti-graphql/src/manager/fileIndexManager.ts:65-77 | A second run whose search returns the records the first run indexed resolves every file (distinct ids) to the same entry, whatever its id supply. |
| FileIndexSelection.FirstWithoutMetaData | opencti-platform/opencti-graphql/src/manager/fileIndexManager.ts:69 | Finds a kept file without metadata, whose `metaData.entity_id` read throws, iff there is one. |
| FileIndexSelection.FileIds | opencti-platform/opencti-graphql/src/manager/fileIndexManager.ts:62 | The searched file ids are those of the kept files, in order. |
| FileIndexSelection.LoadDocs | opencti-platform/opencti-graphql/src/manager/fileIndexManager.ts:78-90 | Each bulk document carries its entry's internal id, file id, entity id, name and date, plus the loaded content of that file id. |
| FileIndexSelection.IndexImportedFiles | opencti-platform/opencti-graphql/src/manager/fileIndexManager.ts:40-92 | Nothing is searched or indexed iff no file survives the filter. The run fails iff some file survives and one of the kept files has no metadata; the error names such a file, and it is possible only with an empty MIME list. A bulk index searches the kept ids and writes one document per kept file, in order, with the file's id, its resolved internal id, its content, its entity id, its name and its date. |
| FileIndexSelection.IndexedFilesAreSelected | opencti-platform/opencti-graphql/src/manager/fileIndexManager.ts:49-62 | A file id is searched iff a listed file with that id passes the filter. With an empty MIME list, every listed file is searched. |
| FileIndexStream.ReloadTargetsAppend | opencti-platform/opencti-graphql/src/manager/fileIndexManager.ts:100-116 | Events are handled in index order: the reloads of a concatenated batch are those of its parts, in order. |
| FileIndexStream.ReloadTargetsMembership | opencti-platform/opencti-graphql/src/manager/fileIndexManager.ts:102-114 | An entity is reloaded iff some update event for it has files and a patch. No other event type is examined, and the patch content is not (the `.map` result is always truthy). |
| FileIndexStream.HandleStreamEvents | opencti-platform/opencti-graphql/src/manager/fileIndexManager.ts:94-120 | The loop reloads the targets in order. An exception in reload k stops the batch after the first k reloads and is swallowed. Without one, every target is reloaded. |
| FileIndexStream.NoUpdateNoReload | opencti-platform/opencti-graphql/src/manager/fileIndexManager.ts:96-102 | An empty batch, or one without update events, reloads nothing. |
| FileIndexStream.AsWrittenTriggersOnUnrelatedPatch | opencti-platform/opencti-graphql/src/manager/fileIndexManager.ts:107-110 | An update whose only patch renames the entity still triggers a reload, though it touches neither grants nor markings. |
| FileIndexStream.IntendedTriggerSeparatesPatches | opencti-platform/opencti-graphql/src/manager/fileIndexManager.ts:107-109 | With the test the comment describes, a marking patch triggers a reload and a rename patch does not. |
| FileIndexStream.IntendedImpliesAsWritten | opencti-platform/opencti-graphql/src/manager/fileIndexManager.ts:107-109 | The intended test holds iff some patch operation's path names `granted_refs` or `object_marking_refs`. Every event it accepts, the written test accepts too. |
| FileIndexManager.IndexHandlerNeedsEnterprise | opencti-platform/opencti-graphql/src/manager/fileIndexManager.ts:136-138 | Without enterprise edition the scheduled handler does nothing. |
| FileIndexManager.IndexHandlerReleases | opencti-platform/opencti-graphql/src/manager/fileIndexManager.ts:138-155 | With enterprise edition, every exit leaves `running` false and no index lock held. A lock failure is the one outcome that raises `LockUnavailable`. |
| FileIndexManager.IndexHandlerIndexesAndSaves | opencti-platform/opencti-graphql/src/manager/fileIndexManager.ts:138-155 | The files reach the index iff the lock was obtained, storage held up to the bulk index and the run found no file without metadata. The status is saved iff the run completes. A storage failure is raised iff storage fails before the bulk index, or at the status save after a successful index. |
| FileIndexManager.IndexHandlerRunningUnderLock | opencti-platform/opencti-graphql/src/manager/fileIndexManager.ts:140-143 | `running` becomes true only after the index lock was obtained. |
| FileIndexManager.StreamHandlerStopsOnShutdown | opencti-platform/opencti-graphql/src/manager/fileIndexManager.ts:166-168 | Once shutdown is requested, a run does not wait. |
| FileIndexManager.StreamHandlerReleases | opencti-platform/opencti-graphql/src/manager/fileIndexManager.ts:157-180 | Every run releases the stream lock it obtained. A run that obtained it, or that finds a processor from an earlier run, shuts that processor down. |
| FileIndexManager.StreamHandlerLeavesRunning | opencti-platform/opencti-graphql/src/manager/fileIndexManager.ts:157-180 | As written, a run that obtained the stream lock ends with `running` true and no lock held. |
| FileIndexManager.StreamHandlerIntendedResets | opencti-platform/opencti-graphql/src/manager/fileIndexManager.ts:151-180 | With `running = false` in the `finally`, `running` is true only under the stream lock. It is false when a locked run ends, and untouched otherwise. |
| FileIndexManager.Manager.constructor | opencti-platform/opencti-graphql/src/manager/fileIndexManager.ts:122-128 | Starts with both flags false, no processor, no timers and no lock. |
| FileIndexManager.Manager.Start | opencti-platform/opencti-graphql/src/manager/fileIndexManager.ts:183-191 | Registers two interval timers and points the two scheduler variables at them. Nothing else changes. |
| FileIndexManager.Manager.Status | opencti-platform/opencti-graphql/src/manager/fileIndexManager.ts:192-198 | Reports id `FILE_INDEX_MANAGER`. It is enabled iff the manager is enabled and the attachment processor and enterprise edition are both on. `running` is the in-process flag. |
| FileIndexManager.Manager.Shutdown | opencti-platform/opencti-graphql/src/manager/fileIndexManager.ts:199-205 | Raises `shutdown`, clears the two referenced timers and returns true. Nothing else changes. |
| FileIndexManager.Manager.FileIndexHandler | opencti-platform/opencti-graphql/src/manager/fileIndexManager.ts:134-156 | Appends the run's effects to the log, keeps "no lock held between calls", and returns the handler's outcome. `running` ends false with enterprise edition and unchanged without it. |
| FileIndexManager.Manager.IndexLocked | opencti-platform/opencti-graphql/src/manager/fileIndexManager.ts:140-154 | After the lock is obtained: logs the lock and `running` set, the body's effects, then `running` cleared and the lock released; `running` ends false and no lock is held. |
| FileIndexManager.Manager.IndexUnderLock | opencti-platform/opencti-graphql/src/manager/fileIndexManager.ts:144-149 | Logs the bulk index only when storage held up to it and every kept file had metadata, and the status save only when that save also succeeds; returns how the body ends. |
| FileIndexManager.Manager.WaitWhileLive | opencti-platform/opencti-graphql/src/manager/fileIndexManager.ts:166-168 | Waits once per poll while the processor runs. It does not wait at all once shutdown is set. |
| FileIndexManager.Manager.StreamLocked | opencti-platform/opencti-graphql/src/manager/fileIndexManager.ts:160-179 | After the stream lock is obtained: logs the lock, `running` set and the processor created, the processor's run, then its shutdown and the lock release; `running` stays true. |
| FileIndexManager.Manager.RunProcessor | opencti-platform/opencti-graphql/src/manager/fileIndexManager.ts:165-168 | A failed `start` logs nothing and ends the run as `StartFailed`. Otherwise it logs the start and one wait per poll while the processor runs, none once shutdown is set. |
| FileIndexManager.Manager.FileIndexStreamHandler | opencti-platform/opencti-graphql/src/manager/fileIndexManager.ts:157-180 | Appends the run's effects, keeps "no lock held between calls", and never raises. `running` ends true after any locked run. The held processor persists across runs. |
| FiltersUtils.IsUniqFilter | opencti-platform/opencti-front/src/utils/filters/filtersUtils.tsx:159 | `isUniqFilter(k)` holds iff k is one of the twenty distinct single-valued or date keys (the lists at :83-107). |
| FiltersUtils.FirstMatch | opencti-platform/opencti-front/src/utils/filters/filtersUtils.tsx:175-188 | The smallest index whose filter has the key, and the operator too when a non-empty one is given. It is null iff there is none. |
| FiltersUtils.FindFilterIndexFromKey | opencti-platform/opencti-front/src/utils/filters/filtersUtils.tsx:175-188 | The loop returns that first matching index. |
| FiltersUtils.FindFilterFromKey | opencti-platform/opencti-front/src/utils/filters/filtersUtils.tsx:161-173 | Returns the element at the index `findFilterIndexFromKey` would return, or null when that is null. |
| FiltersUtils.AbsentOperatorMatchesAny | opencti-platform/opencti-front/src/utils/filters/filtersUtils.tsx:164-169 | An absent or empty operator matches any operator for the key. |
| FiltersUtils.OperatorNarrowsSearch | opencti-platform/opencti-front/src/utils/filters/filtersUtils.tsx:179-183 | A match with an operator lies at or after the first match on the key alone. |
| FiltersUtils.FiltersWithEntityType | opencti-platform/opencti-front/src/utils/filters/filtersUtils.tsx:190-207 | An undefined group gives undefined. Otherwise mode and nested groups are kept, and the filters are the old ones plus one trailing {entity_type, eq, or} filter. That filter holds the array given, or a singleton of the string. |
| FiltersUtils.EmptyGroupHasNothing | opencti-platform/opencti-front/src/utils/filters/filtersUtils.tsx:209-211 | A group is empty iff it has no filters and no nested groups. |
| FiltersUtils.EntityTypeGroupNotEmpty | opencti-platform/opencti-front/src/utils/filters/filtersUtils.tsx:190-211 | A defined `filtersWithEntityType` result is never empty. A search for `entity_type` with `eq` in it succeeds. |
| FiltersUtils.FilterValue | opencti-platform/opencti-front/src/utils/filters/filtersUtils.tsx:213-240 | A truthy or null value is returned as is. Only a date key is ever date-formatted, and it is its id that gets formatted. |
| FiltersUtils.ResolvedValueWins | opencti-platform/opencti-front/src/utils/filters/filtersUtils.tsx:215-217 | A truthy or null value wins whatever the key and the id. |
| FiltersUtils.BasedOnLabel | opencti-platform/opencti-front/src/utils/filters/filtersUtils.tsx:221-223 | For `basedOn` the label is Yes iff the id is `EXISTS`, and No otherwise. |
| FiltersUtils.UnlistedKeyShowsId | opencti-platform/opencti-front/src/utils/filters/filtersUtils.tsx:218-239 | A key that no list names shows its id. |
| FiltersUtils.DateAndVocabularyLabels | opencti-platform/opencti-front/src/utils/filters/filtersUtils.tsx:218-238 | A vocabulary key translates its id. A date key date-formats it. |
| FiltersUtils.EntityTypeLabel | opencti-platform/opencti-front/src/utils/filters/filtersUtils.tsx:227-235 | For an entity-type key, `all` reads entity_All. An id whose first character equals its upper case reads entity_<id>. An id starting with a lower-case letter reads relationship_<id>. |
| FiltersUtils.EntityTypeWithoutId | opencti-platform/opencti-front/src/utils/filters/filtersUtils.tsx:227-239 | An entity-type key with an absent or empty id falls through and shows the id. |
| FiltersElement.Block | opencti-platform/opencti-front/src/private/components/common/lists/FiltersElement.tsx:58-64 | A dropped key gives nothing. A kept date key gives a `gt` entry then an `lt` entry. Any other kept key gives one entry with no operator. |
| FiltersElement.DisplayedFiltersAppend | opencti-platform/opencti-front/src/private/components/common/lists/FiltersElement.tsx:57-65 | The output of concatenated key lists is the concatenation of their outputs, so key order is preserved. |
| FiltersElement.DisplayedFiltersSplit | opencti-platform/opencti-front/src/private/components/common/lists/FiltersElement.tsx:57-65 | Each key's entries sit consecutively, between those of the keys before it and those after it. |
| FiltersElement.DisplayedFiltersLength | opencti-platform/opencti-front/src/private/components/common/lists/FiltersElement.tsx:57-65 | Output length is the number of kept non-date keys plus twice the number of kept date keys. |
| FiltersElement.DisplayedFiltersEntries | opencti-platform/opencti-front/src/private/components/common/lists/FiltersElement.tsx:58-64 | Every entry comes from a kept input key. Date entries carry `gt` or `lt`; others carry no operator. |
| FiltersElement.DisplayedFiltersKeys | opencti-platform/opencti-front/src/private/components/common/lists/FiltersElement.tsx:58 | An input key is offered iff it is kept. A direct-filter key is offered iff `noDirectFilters` is set. |
| ObjectMarkingField.CompareAsWritten | opencti-platform/opencti-front/src/private/components/common/form/ObjectMarkingField.tsx:73-77 | The written comparator answers -1 exactly when `a` strictly precedes `b` by (type, rank), and 1 otherwise. |
| ObjectMarkingField.CompareAsWrittenIsInconsistent | opencti-platform/opencti-front/src/private/components/common/form/ObjectMarkingField.tsx:73-77 | It answers 1 for a marking against itself, and 1 both ways for two markings of equal type and rank. |
| ObjectMarkingField.Compare | opencti-platform/opencti-front/src/private/components/common/form/ObjectMarkingField.tsx:73-77 | The corrected comparator is at most 0 iff (type, rank) order allows `a` before `b`. It is 0 iff type and rank are equal. |
| ObjectMarkingField.CompareIsConsistent | opencti-platform/opencti-front/src/private/components/common/form/ObjectMarkingField.tsx:73-77 | The corrected comparator is 0 on itself, antisymmetric and transitive. |
| ObjectMarkingField.SortOptions | opencti-platform/opencti-front/src/private/components/common/form/ObjectMarkingField.tsx:73-77 | Sorts the options in place into a permutation that is non-decreasing by definition type, then by rank within a type. |
| ObjectMarkingField.ValueAddedMembership | opencti-platform/opencti-front/src/private/components/common/form/ObjectMarkingField.tsx:91 | A value is in `valueAdded` iff another value has its definition type and a different rank. |
| ObjectMarkingField.ValueAddedNeverSingle | opencti-platform/opencti-front/src/private/components/common/form/ObjectMarkingField.tsx:91 | `valueAdded` is empty or holds at least two values. |
| ObjectMarkingField.OnChangeRoutes | opencti-platform/opencti-front/src/private/components/common/form/ObjectMarkingField.tsx:90-96 | Without a conflict, `onChange` gets the values unchanged and the pending state is untouched. With one, the values become pending and `onChange` is not called. |
| ObjectMarkingField.ConfirmDeliversHeldChange | opencti-platform/opencti-front/src/private/components/common/form/ObjectMarkingField.tsx:86-96 | Confirming a held change passes the whole change to `onChange` once and clears the pending state. |
| ObjectMarkingField.CancelDropsLastValue | opencti-platform/opencti-front/src/private/components/common/form/ObjectMarkingField.tsx:81-96 | Cancelling a held change (two or more values) gives `setFieldValue`, when present, the change without its last value. It clears the pending state and never calls `onChange`. |
| ObjectMarkingField.CloseDiscards | opencti-platform/opencti-front/src/private/components/common/form/ObjectMarkingField.tsx:78-96 | Closing the dialog discards a held change without any call. |
| ObjectMarkingField.MarkingField.constructor | opencti-platform/opencti-front/src/private/components/common/form/ObjectMarkingField.tsx:57-68 | Starts with nothing pending and no calls made. |
| ObjectMarkingField.MarkingField.HandleOnChange | opencti-platform/opencti-front/src/private/components/common/form/ObjectMarkingField.tsx:90-96 | Performs the on-change step under the field's own name. The dialog is open afterwards iff there was a conflict or it was already open. |
| ObjectMarkingField.MarkingField.HandleCancellation | opencti-platform/opencti-front/src/private/components/common/form/ObjectMarkingField.tsx:81-85 | Performs the cancel step, which pops the last pending value if there is one, and closes the dialog. |
| ObjectMarkingField.MarkingField.SubmitUpdate | opencti-platform/opencti-front/src/private/components/common/form/ObjectMarkingField.tsx:86-89 | Passes the pending values (possibly none) to `onChange`, then closes the dialog. |
| ObjectMarkingField.MarkingField.HandleClose | opencti-platform/opencti-front/src/private/components/common/form/ObjectMarkingField.tsx:78-80 | Clears the pending state and makes no call. |

## Left out

- **Collaborators** are inputs, as described above:
  - Redis locking (`lockResource`, lock expiry, `unlock` failures);
  - the stream processor (`createStreamProcessor`, `start`, `running`, `shutdown`), which is never assumed to throw except in `start`;
  - storage listing and content;
  - the search engine (`elSearchFiles`, `elBulkIndexFiles`, `elLoadById`, `elUpdateFilesWithEntityRestrictions`);
  - `getLastIndexedDate` and `saveFileIndexStatus`;
  - `moment` date conversion;
  - the settings cache.
- **Listing options.** The `modifiedSince` date, the `import/` path and the excluded `import/pending/` path are not modelled: the listing is given.
- **Logging** (`logApp`) is not modelled. The stream handler's distinction between a lock error and another start failure only selects a log level, so both are swallowed alike.
- **Timing and concurrency** are not modelled:
  - interval timers firing and interleaved handler runs;
  - the 2-second waits;
  - the `concurrency: 5` fan-out of content loading, which is modelled as an in-order map.
  - A shutdown raised while a run is already waiting is folded into `livePolls`: the model reads the flag once per poll, and it is set only between calls.
- **`Manager.Start` called twice.** It registers a second pair of timers and loses the references to the first. The model keeps every timer in `timers`, so this is visible there, but no lemma is stated about it.
- **`FileIndexManager.Manager.FileIndexHandler`.** A storage failure is placed either before the bulk index or at the status save. Failures of the reads before the bulk index (last indexed date, listing, search, content) are one case, and it takes precedence over a missing-metadata error, although in the code a failing content load comes after that error.
- **`FileIndexManager.Manager.FileIndexStreamHandler`.** The processor `start` is the only stream step that may fail. `createStreamProcessor`, `shutdown` and `unlock` are taken to succeed.
- **`FileIndexSelection.SelectFiles`.** Sizes are integers. A `NaN` or non-numeric size is not modelled.
- **Configuration overrides** are not modelled. `maxFileSize`, the MIME list and the lock keys are parameters; the constants are only the defaults.
- **`FiltersUtils.FilterValue`.** `t` and `nsdt` are symbolic (the `Label` datatype). `toUpperCase` is modelled for ASCII letters only; other characters, including those whose upper case differs or is longer, count as their own upper case.
- **String order.** `StrLess` compares characters. JavaScript compares UTF-16 code units, which orders characters outside the Basic Multilingual Plane differently.
- **`ObjectMarkingField.SortOptions`.** It uses the corrected comparator and an insertion sort. The engine's own sorting algorithm is not modelled, nor what it does with the written, inconsistent comparator (see Findings). `convertMarking` is not part of this model: a `Marking` carries only the id, type and rank it produces.
- **React state.** `setNewMarking` is batched by React; the model applies it at once. `newMarking?.pop()` mutates the state array in place; the model produces a new sequence, so aliasing with the array passed to `setFieldValue` is not captured.
- **Handler installation.** `handleOnChange` is installed only when `onChange` is a function (ObjectMarkingField.tsx:122); the model assumes it is.
- **Other files.** Rendering, GraphQL fragments and the other front-end components are not part of this model. Neither is the rule `LocatedAtLocatedRule.ts`, which is configuration for an inference engine that is not shown.

## Findings

| source | as written | input that shows it | evidently intended | confidence | as-written member | corrected member |
|---|---|---|---|---|---|---|
| opencti-platform/opencti-graphql/src/manager/fileIndexManager.ts:107-110 | `patch && patch.map(...)` is an array, and an array is truthy whatever it holds | an update event with files whose patch is `[{path: "/name", op: "replace"}]` triggers a restriction reload | `.some(...)`: reload only when a patch path names `granted_refs` or `object_marking_refs`, as the comment at :107 says | high, not executed | FileIndexStream.AsWrittenTriggersOnUnrelatedPatch | FileIndexStream.IntendedTriggerSeparatesPatches |
| opencti-platform/opencti-graphql/src/manager/fileIndexManager.ts:157-180 | the stream handler sets `running = true` and its `finally` never resets it | any stream run that obtains the lock; `status` then reports `running: true` with no lock held, until the next scheduled run with enterprise edition clears it | `running = false` in the `finally`, as `fileIndexHandler` does at :152 | medium, not executed | FileIndexManager.StreamHandlerLeavesRunning | FileIndexManager.StreamHandlerIntendedResets |
| opencti-platform/opencti-front/src/private/components/common/form/ObjectMarkingField.tsx:73-77 | the comparator never returns 0 | two allowed markings of the same type and rank (or the engine comparing a marking with itself) get 1 both ways, so the comparator is not consistent and ECMAScript leaves the sort order implementation-defined | return 0 on ties | low, not executed | ObjectMarkingField.CompareAsWrittenIsInconsistent | ObjectMarkingField.CompareIsConsistent |

The model follows the code as written in two of these places:
- The stream model (`HandleStreamEvents`, `ReloadTargetsMembership`) uses the written trigger. `IntendedImpliesAsWritten` shows that the intended rule only removes reloads.
- The manager class uses the written stream handler. `StreamHandlerEffectsIntended` and `StreamHandlerIntendedResets` state the corrected one.

The option sort uses the corrected comparator.
