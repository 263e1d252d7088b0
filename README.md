# excalisave — a Dafny model of the synchronisation and bookkeeping core

Excalisave is a browser extension that saves Excalidraw drawings in the
browser's local storage and synchronises them with Google Drive. This project
models the parts of it that keep state, once the browser storage, the Drive
client and the page are replaced by plain maps, sequences and function
parameters:

- **Mappings** (`mappings.dfy`): the local-id ↔ server-id dictionaries of the
  sync engine, one pair per item type (folders, bookmarks). The module covers
  `add` and `remove`, including the self-heal branch, which throws after it
  has already deleted the local side. It also covers the snapshot and the
  `mapId` / `mapParentId` / `mappable` look-ups.
- **Diff** (`diff.dfy`): the per-kind buckets of CREATE/UPDATE/MOVE/REMOVE
  actions. Actions are objects, so `retract` finds them by identity. The
  module covers `commit`, `retract` (with `indexOf` and `splice` semantics,
  -1 included), `getActions`, `clone`, `toJSON`/`fromJSON`, the re-targeting
  `map`, and the move-chain search `findChain`.
- **ChangeDetection** (`change_detection.dfy`): `hasDrawingDataChanged`, which
  drops every difference whose path touches `version`, `versionNonce` or
  `updated`.
- **Background** (`background.dfy`): the background page's message handlers,
  as methods on a key → record store: SAVE_NEW_DRAWING, UPDATE_DRAWING,
  RENAME_DRAWING, CLEANUP_FILES, LOGIN_RESULT and LOGOUT.
- **AssetGc** (`asset_gc.dfy`): the two page scripts that touch the image-file
  store. One deletes unused files; the other switches drawings and bumps every
  file's `lastRetrieved` to 1 January 2400.
- **CleanupSchedule** (`cleanup_schedule.dfy`): the two "is a cleanup due"
  utilities (three days, strict comparison) and what they record and send.
- **CachingAdapter** (`caching_adapter.dfy`): the in-memory bookmark tree cache
  with its id counter. It covers create, update, move and remove of
  bookmarks and folders, folder-loop rejection, and bulk import with fresh ids.
- **Tree** (`tree.dfy`): the element and drawing tree items, with their look-ups,
  clones and memoised hashes.
- **Popup** (`popup.dfy`): the sidebar selection → tab classification, and
  the filter-and-sort of the drawing list. The sort works in place on an array.
- **CustomDomains** (`custom_domains.dfy`): whether a tab's URL counts as an
  Excalidraw page.

Ids are strings (integers in the caching adapter). A value JavaScript may
leave `undefined` is an `Option`, and a thrown error is an `Err` or an error
out-parameter. Times are integer milliseconds in the file scripts and
schedulers; in drawing records they are opaque ISO strings, and "now" is a
parameter. SHA-256, `JSON.parse`, the structural diff library and the Drive
client are function parameters.

## Model

| member | source | states |
|---|---|---|
| Mappings.Add | src/background/Mappings.ts:92-101 | a missing local or remote id fails with "Cannot add empty mapping" and changes nothing; otherwise both directions are written |
| Mappings.Remove | src/background/Mappings.ts:103-122 | with disagreeing truthy ids: the local side is removed, then a TypeError. With a local id: remove by local. Otherwise: remove by remote. A missing table throws |
| Mappings.Mappings.constructor | src/background/Mappings.ts:26-30 | the instance holds the folder and bookmark tables it is given |
| Mappings.Mappings.GetSnapshot | src/background/Mappings.ts:32-43 | the snapshot's four tables are the instance's current folder/bookmark tables in both directions |
| Mappings.Mappings.AddFolder | src/background/Mappings.ts:45-53 | `add` on the folder tables: error iff an id is missing; otherwise both directions are written |
| Mappings.Mappings.AddBookmark | src/background/Mappings.ts:65-73 | `add` on the bookmark tables, with the same outcome |
| Mappings.Mappings.RemoveFolder | src/background/Mappings.ts:55-63 | `remove` on the folder tables, with the self-heal failure and the local/remote fall-through |
| Mappings.Mappings.RemoveBookmark | src/background/Mappings.ts:75-83 | `remove` on the bookmark tables, with the same outcome |
| Mappings.AddWritesBothDirections | src/background/Mappings.ts:99-100 | after `add(l, r)`, `l` maps to `r`, `r` maps back to `l`, and no other key changes |
| Mappings.AddLeavesStaleInverse | src/background/Mappings.ts:96-101 | re-adding a mapped local id to a new remote id leaves the old remote id pointing at it, so the tables stop being inverse |
| Mappings.AddFreshPairKeepsConsistency | src/background/Mappings.ts:99-100 | adding a pair of unmapped ids keeps the two tables mutual inverses |
| Mappings.RemoveByLocalKeepsConsistency | src/background/Mappings.ts:115-117 | removing by local id keeps inverse tables inverse and removes the id and its partner |
| Mappings.RemoveByRemoteKeepsConsistency | src/background/Mappings.ts:118-120 | removing by remote id keeps inverse tables inverse and removes the id and its partner |
| Mappings.RemoveUnmappedLocalId | src/background/Mappings.ts:116 | removing an unmapped local id deletes the `"undefined"` server key and nothing else |
| Mappings.SelfHealBranchOutcome | src/background/Mappings.ts:110-113 | non-empty ids that disagree with the table take the self-heal branch, and the local side is gone afterwards |
| Mappings.FalsyLocalIdSkipsSelfHeal | src/background/Mappings.ts:110-117 | an empty local id never takes the self-heal branch |
| Mappings.MapIdWithinLocation | src/background/Mappings.ts:124-147 | within an item's own location, `mapId` is its id and `mapParentId` its parent id |
| Mappings.MapId | src/background/Mappings.ts:124-138 | within its own location an item keeps its id; across locations a mapped id is always one the type's table holds as a partner |
| Mappings.MapIdRoundTrip | src/background/Mappings.ts:124-138 | on inverse tables, mapping a defined id across and back returns it |
| Mappings.MapParentId | src/background/Mappings.ts:140-154 | `mapParentId` is `mapId` of the parent taken as a folder at the item's location |
| Mappings.Mappable | src/background/Mappings.ts:156-168 | two items at the same location are mappable exactly when their ids are equal |
| Mappings.MappableOneWay | src/background/Mappings.ts:156-168 | on inverse tables, for one item type across locations, the second test of `mappable` adds nothing: mappable iff the first item maps onto the second |
| Mappings.MapParentIdIgnoresType | src/background/Mappings.ts:140-154 | `mapParentId` reads the folder table whatever the item's type |
| Mappings.MappableSymmetric | src/background/Mappings.ts:156-168 | `mappable(a, b) == mappable(b, a)` |
| Mappings.SnapshotAfterAddBookmark | src/background/Mappings.ts:32-43 | after `addBookmark(l, r)`, a fresh snapshot maps local `l` to `r` and server `r` to `l`, and the two items are mappable |
| Diff.Diff.constructor | src/background/Diff.ts:61-68 | a new batch has four empty buckets |
| Diff.Diff.Commit | src/background/Diff.ts:79-94 | a fresh copy of the action is appended to its kind's bucket; the other buckets are unchanged |
| Diff.Diff.Retract | src/background/Diff.ts:96-123 | the kind's bucket becomes `splice(indexOf(action), 1)` of the old one; the other buckets are unchanged |
| Diff.IndexOf | src/background/Diff.ts:100 | `indexOf` is the first position holding the object, or -1 iff it is absent |
| Diff.RetractPresent | src/background/Diff.ts:96-123 | retracting a held object removes exactly that occurrence |
| Diff.RetractAbsent | src/background/Diff.ts:96-123 | retracting an object the bucket does not hold removes the bucket's last element |
| Diff.CommitThenRetractDropsLast | src/background/Diff.ts:79-123 | committing `a`, then `b`, then retracting the original `a` (a copy was stored) drops `b` and keeps `a` |
| Diff.Diff.GetActions | src/background/Diff.ts:125-135 | all actions, grouped UPDATE, CREATE, MOVE, REMOVE, each kind in bucket order |
| Diff.Diff.GetActionsIsBuckets | src/background/Diff.ts:129-134 | `getActions()` is the concatenation of the four buckets and is already grouped |
| Diff.RegroupGrouped | src/background/Diff.ts:129-134 | a list is grouped by kind iff regrouping it changes nothing |
| Diff.BucketsGrouped | src/background/Diff.ts:129-134 | concatenating one-kind buckets in the order U, C, M, R is grouped, and filtering it by a kind gives back that bucket |
| Diff.Diff.CommitAll | src/background/Diff.ts:72-74 | committing a list appends to each bucket that list's actions of that kind, in order |
| Diff.Diff.Clone | src/background/Diff.ts:70-77 | a new batch with the same buckets and the same `getActions()` |
| Diff.Diff.ToJSON | src/background/Diff.ts:311-319 | the serialised list has `getActions()`'s length, is grouped, and holds each bucket's actions as its kind's slice |
| Diff.FromJSON | src/background/Diff.ts:340-349 | each bucket is the list's actions of that kind; `getActions()` is the list regrouped |
| Diff.RestoreFromJSON | src/background/Diff.ts:311-349 | `fromJSON(toJSON(d))` has `d`'s buckets and actions |
| Diff.MapOne | src/background/Diff.ts:239-304 | rejected actions pass unchanged. Accepted ones keep kind and indices, get the target location and an old item. The action fails iff its mapped parent is undefined while its own is defined (outside the swap branch) |
| Diff.MapAll | src/background/Diff.ts:233-307 | without skipping, a success maps every action and a failure is an error; skipping only drops actions |
| Diff.Diff.Map | src/background/Diff.ts:225-309 | succeeds iff the action-wise mapping does; the new batch holds its result, and the old batch is untouched |
| Diff.MapAllAppend | src/background/Diff.ts:234-307 | mapping a concatenation maps each part, with the first failure winning |
| Diff.MapAllKindFilter | src/background/Diff.ts:234-307 | mapping commutes with taking one kind's actions |
| Diff.MapAllRegroup | src/background/Diff.ts:234-307 | mapping a grouped list gives a grouped list, so the mapped batch's order is the mapped order |
| Diff.MapRoundTrip | src/background/Diff.ts:260-287 | with inverse folder tables, mapping a local action to the server and back restores its kind, id and parent id |
| Diff.MapAllRoundTrip | src/background/Diff.ts:233-307 | the same round trip for a whole local action list, element by element |
| Diff.FindChain | src/background/Diff.ts:137-215 | an action directly reachable from the current item makes the search succeed |
| Diff.FindChainSound | src/background/Diff.ts:137-215 | the search succeeds iff there is a chain of distinct, unvisited actions leading to the target |
| Diff.ChainLengthBound | src/background/Diff.ts:164-208 | such a chain is never longer than the number of unvisited actions, which bounds the recursion depth |
| Diff.ThreeCycleFound | src/background/Diff.ts:137-215 | the moves A→B, B→C, C→A form a chain |
| Diff.ThreeChainNotFound | src/background/Diff.ts:137-215 | the moves A→B, B→C, C→D form no chain back to A |
| ChangeDetection.KeptDifferences | src/background/helpers/background.helpers.ts:15-25 | exactly the differences with no ignored key anywhere on their path survive |
| ChangeDetection.HasDrawingDataChanged | src/background/helpers/background.helpers.ts:5-41 | a parse or diff failure gives true; otherwise the result is true iff some difference survives the filter |
| ChangeDetection.IgnoredAnywhereDiscards | src/background/helpers/background.helpers.ts:17-24 | an ignored key at any path position discards the difference |
| ChangeDetection.IndicesAreKept | src/background/helpers/background.helpers.ts:19-24 | a path of array indices only is never discarded |
| ChangeDetection.SimilarKeyIsKept | src/background/helpers/background.helpers.ts:17-21 | a key that only resembles an ignored one (`versions`) is kept |
| ChangeDetection.OnlyIgnoredMeansUnchanged | src/background/helpers/background.helpers.ts:13-36 | when every difference touches an ignored key, the drawing counts as unchanged |
| Background.NewRecord | src/background/index.ts:56-70 | the new record copies id, name, preview, colour and data, gets `createdAt` = now, and has no hash, lastSync or lastModified |
| Background.LocalStore.SaveNew | src/background/index.ts:55-71 | SAVE_NEW_DRAWING writes the new record under its id, replacing any record there; nothing else changes |
| Background.UpdatedRecord | src/background/index.ts:108-127 | id, createdAt and lastSync are kept; hash and data are replaced; lastModified becomes now iff the hash changed; name, preview and colour fall back when falsy |
| Background.LocalStore.Update | src/background/index.ts:73-175 | UPDATE_DRAWING: an unknown id or a failed hash writes nothing. The record is rewritten only when the hash or the state changed. A cloud save with a modified time then sets lastSync = lastModified = that time |
| Background.UnchangedContentNotWritten | src/background/index.ts:103-107 | the same hash and the same state means no write |
| Background.StateOnlyChangeKeepsLastModified | src/background/index.ts:117-120 | a write caused by the state alone keeps lastModified |
| Background.Synced | src/background/index.ts:163-167 | only lastSync and lastModified change, both to the modified time |
| Background.LocalStore.Rename | src/background/index.ts:177-197 | RENAME_DRAWING: an unknown id writes nothing; otherwise only the record's name changes |
| Background.FileIdsOf | src/background/index.ts:237-244 | the used ids are exactly the truthy file ids of the image elements: every such id is in the set, and every id in the set comes from one |
| Background.UsedFileIds | src/background/index.ts:233-246 | one unparsable drawing record aborts the handler; otherwise the set is exactly the file ids of all `drawing:` records |
| Background.NonDrawingRecordsUnused | src/background/index.ts:233-235 | records whose id lacks the `drawing:` prefix do not contribute |
| Background.LocalStore.CleanupFiles | src/background/index.ts:230-259 | CLEANUP_FILES: the delete script is asked to run with the used-id set and the execution timestamp iff every record parses |
| Background.BeforeFirst | src/background/index.ts:333 | `split(sep)[0]` is the longest prefix before the first occurrence of the separator, or the whole string |
| Background.DownloadedRecord | src/background/index.ts:331-347 | a downloaded record gets the excalisave id, the remote hash, lastSync = lastModified = modified time, the file name before `.excalidraw`, and `#ffffff` as the fallback colour |
| Background.SyncedFile | src/background/index.ts:316-368 | one cloud file: a missing record is downloaded when possible; a record with the same truthy hash is marked synced; any other record is untouched |
| Background.LocalStore.SyncFile | src/background/index.ts:316-368 | the store becomes `SyncedFile` of the old store |
| Background.SyncedFiles | src/background/index.ts:316-368 | the pass over all files only adds keys, and keeps every record under its own id |
| Background.LocalStore.SyncFiles | src/background/index.ts:316-368 | the store becomes `SyncedFiles` of the old store, file by file |
| Background.ClearedLastSync | src/background/index.ts:374-399 | only lastSync changes, and only on `drawing:` records whose id is not in the kept set |
| Background.ClearedLastSyncKeeps | src/background/index.ts:374-399 | records outside the clearing are unchanged |
| Background.LocalStore.ClearLastSync | src/background/index.ts:374-399 | the store becomes `ClearedLastSync` of the old store |
| Background.LocalStore.LoginResult | src/background/index.ts:282-400 | LOGIN_RESULT: failure or a missing drive.file scope changes nothing. Otherwise the cloud folder id is cleared; a failing file listing then ends the handler with the records unchanged; after a listing every file is synced, and lastSync is cleared on records whose id is not a Drive file id |
| Background.LoginClearsEverySync | src/background/index.ts:370-378 | Drive file ids never carry the `drawing:` prefix, so the login clears lastSync on every drawing |
| Background.LoginUndoesSync | src/background/index.ts:353-399 | a record the file loop has just marked synced has no lastSync after the login |
| Background.LocalStore.LoginResultCorrected | src/background/index.ts:370-399 | the login with the kept set taken from the files' excalisave ids; a failing file listing leaves only the folder id cleared |
| Background.CorrectedLoginKeepsSync | src/background/index.ts:370-399 | with the corrected set, a record that has a cloud file keeps its lastSync |
| Background.LocalStore.Logout | src/background/index.ts:403-422 | LOGOUT clears lastSync on every `drawing:` record and changes nothing else |
| Background.LogoutClearsAll | src/background/index.ts:405-418 | each drawing record loses exactly its lastSync |
| AssetGc.KeptFiles | src/execute-scripts/delete-unused-files.ts:21-60 | a file survives iff the script does not run, its key is used, or it was created after the execution timestamp; survivors are unmodified |
| AssetGc.FilesStore.constructor | src/execute-scripts/delete-unused-files.ts:14 | the store holds the files it is given |
| AssetGc.FilesStore.DeleteUnusedFiles | src/execute-scripts/delete-unused-files.ts:16-61 | the per-key loop leaves exactly `KeptFiles` of the old store |
| AssetGc.NoParamsNoDeletion | src/execute-scripts/delete-unused-files.ts:21-30 | missing parameters, an empty used list or a falsy timestamp delete nothing |
| AssetGc.UsedFileKept | src/execute-scripts/delete-unused-files.ts:42-47 | a used file is never deleted |
| AssetGc.CreationCutoff | src/execute-scripts/delete-unused-files.ts:52-56 | a file created after the timestamp stays; an unused file created exactly at the timestamp is deleted |
| AssetGc.DecisionIsPerKey | src/execute-scripts/delete-unused-files.ts:40-60 | a key's outcome depends on its own file only |
| AssetGc.DeleteIdempotent | src/execute-scripts/delete-unused-files.ts:40-60 | a second run with the same parameters deletes nothing more |
| AssetGc.BumpDoesNotProtect | src/action-scripts/switch-drawing.ts:88-102 | the bump does not change which files the delete script removes |
| AssetGc.Bumped | src/action-scripts/switch-drawing.ts:90-102 | every entry keeps its key and fields except `lastRetrieved`, which is set to the time |
| AssetGc.FilesStore.BumpLastRetrieved | src/action-scripts/switch-drawing.ts:90-102 | the loop leaves exactly `Bumped` of the old store |
| AssetGc.FarFuture | src/action-scripts/switch-drawing.ts:97 | `new Date(2400, 0, 1).getTime()` is 1 January 2400 UTC, shifted by the timezone offset |
| AssetGc.YearStartUtcSteps | src/action-scripts/switch-drawing.ts:97 | the year-start closed form starts at 0 in 1970 and grows by 365 or 366 days per Gregorian year |
| AssetGc.FarFutureIsYear2400 | src/action-scripts/switch-drawing.ts:97 | in UTC the bump time is 13569465600000 |
| AssetGc.FilesStore.SwitchDrawing | src/action-scripts/switch-drawing.ts:25-108 | no target: nothing happens. A truthy current drawing is saved first. A missing target record stops before the files store. Otherwise the target is queued for unload and every file is bumped |
| CleanupSchedule.SessionStore.constructor | src/Popup/utils/chek-clean-outdated-files.util.ts:10-12 | the session store holds the given last cleanup date |
| CleanupSchedule.SessionStore.CheckCleanOutdatedFiles | src/Popup/utils/chek-clean-outdated-files.util.ts:9-53 | when due and on an excalidraw.com tab, sends CLEANUP_FILES with now and records now; otherwise sends nothing and records nothing |
| CleanupSchedule.SessionStore.CheckAndPerformUnusedFilesCleanup | src/lib/utils/cleanup-unused-files.util.ts:18-59 | the same, with the interval built from `DEFAULT_CLEANUP_INTERVAL_DAYS` |
| CleanupSchedule.SchedulersAgree | src/lib/utils/cleanup-unused-files.util.ts:24-27 | both intervals are 259200000 ms, and the two due tests agree on every input |
| CleanupSchedule.NoDateIsDue | src/Popup/utils/chek-clean-outdated-files.util.ts:18-19 | a missing date is always due |
| CleanupSchedule.ThreeDaysBoundary | src/Popup/utils/chek-clean-outdated-files.util.ts:17-19 | exactly three days later is not due, one millisecond more is |
| CleanupSchedule.RunThenRecheck | src/Popup/utils/chek-clean-outdated-files.util.ts:39-50 | the sent timestamp is the recorded date, so a re-check within three days sends nothing |
| CachingAdapter.Find | src/background/adapters/caching.adapter.ts:79 | the found node is a folder or bookmark with the id, and the root itself when it matches |
| CachingAdapter.FindIffContains | src/background/adapters/caching.adapter.ts:79 | the lookup succeeds exactly when some node of the tree matches |
| CachingAdapter.FindParent | src/background/adapters/caching.adapter.ts:68 | an undefined parent id finds nothing; otherwise a folder with exactly that id is found iff the tree contains one (`Contains`), and it is `Find`'s answer |
| CachingAdapter.FindAfterEdit | src/background/adapters/caching.adapter.ts:83-84 | editing the found node in place is what a later look-up returns |
| CachingAdapter.EditBookmarkIds | src/background/adapters/caching.adapter.ts:83-84 | editing a node replaces exactly its subtree's bookmark ids |
| CachingAdapter.SpliceBookmarkIds | src/background/adapters/caching.adapter.ts:120-123 | splicing out one child removes exactly its subtree's bookmark ids |
| CachingAdapter.MoveInAppends | src/background/adapters/caching.adapter.ts:102 | moving in appends to the end of the parent's children and adds the node's bookmarks |
| CachingAdapter.MoveOutRemoves | src/background/adapters/caching.adapter.ts:98-101 | moving out removes the child's first occurrence and its bookmarks |
| CachingAdapter.MoveOutAbsentDropsLast | src/background/adapters/caching.adapter.ts:98-101 | with `indexOf` -1, the splice drops the parent's last child |
| CachingAdapter.Renumber | src/background/adapters/caching.adapter.ts:214-217 | renumbering gives consecutive ids above the counter and a well-parented subtree, with titles and urls unchanged |
| CachingAdapter.ImportedIdsFresh | src/background/adapters/caching.adapter.ts:214-217 | imported ids are distinct and lie above the old highest id |
| CachingAdapter.Adapter.constructor | src/background/adapters/caching.adapter.ts:20-22 | a new adapter has counter 0 and an empty cache |
| CachingAdapter.Adapter.ResetCache | src/background/adapters/caching.adapter.ts:24-33 | counter 0 and an empty cache |
| CachingAdapter.Adapter.CreateBookmark | src/background/adapters/caching.adapter.ts:65-75 | the counter always advances. A missing parent throws UnknownCreateTarget. Otherwise the bookmark is appended with the new id, which is returned |
| CachingAdapter.CreateAppends | src/background/adapters/caching.adapter.ts:67-74 | a created bookmark is the parent's last child and adds exactly its id |
| CachingAdapter.Adapter.UpdateBookmark | src/background/adapters/caching.adapter.ts:77-105 | unknown id throws. Title and url are rewritten first. The same parent means no move. A missing origin or target throws after the rewrite. Otherwise move out, then append |
| CachingAdapter.RewriteKeepsIds | src/background/adapters/caching.adapter.ts:83-84 | the rewrite changes only title and url |
| CachingAdapter.MoveKeepsBookmarks | src/background/adapters/caching.adapter.ts:98-102 | a move keeps the tree's bookmark ids |
| CachingAdapter.Adapter.RemoveBookmark | src/background/adapters/caching.adapter.ts:107-125 | silent when the bookmark or its parent is missing; otherwise exactly that child is spliced out |
| CachingAdapter.RemoveBookmarkDropsOne | src/background/adapters/caching.adapter.ts:120-123 | removing a bookmark drops exactly one occurrence of its id |
| CachingAdapter.Adapter.CreateFolder | src/background/adapters/caching.adapter.ts:127-145 | returns undefined and changes nothing |
| CachingAdapter.Adapter.UpdateFolder | src/background/adapters/caching.adapter.ts:147-184 | errors on a missing folder, origin or target, or a loop (new parent inside the folder). Otherwise the folder is moved to the end of the new parent with its title and parent set |
| CachingAdapter.SelfParentIsLoop | src/background/adapters/caching.adapter.ts:167-175 | moving a folder into itself is always rejected as a loop |
| CachingAdapter.RenameMovesToEnd | src/background/adapters/caching.adapter.ts:176-182 | a rename that re-sends the same parent still moves the folder to the end of its siblings |
| CachingAdapter.Adapter.RemoveFolder | src/background/adapters/caching.adapter.ts:186-203 | silent when the folder or its parent is missing; otherwise exactly that subtree is spliced out |
| CachingAdapter.RemoveFolderDropsSubtree | src/background/adapters/caching.adapter.ts:198-201 | removing a folder drops exactly its subtree's bookmark ids |
| CachingAdapter.Adapter.BulkImportFolder | src/background/adapters/caching.adapter.ts:205-223 | a missing target throws. Otherwise the target's children become the import, renumbered from the counter with parent ids set, and the counter ends at the last id |
| Tree.Element.constructor | src/background/Tree.ts:11-14 | a new element has the given data and location and no memoised hash |
| Tree.Element.CanMergeWith | src/background/Tree.ts:20-26 | a drawing never merges; an element merges iff its `findItem` under this element's id finds it |
| Tree.CanMergeSymmetric | src/background/Tree.ts:20-26 | merging is symmetric between elements |
| Tree.FindItemIffCanMerge | src/background/Tree.ts:47-53 | `o.findItem(e.id)` is `o` exactly when `e` can merge with `o`, and nothing otherwise; an element always finds itself under its own id |
| Tree.Element.Hash | src/background/Tree.ts:28-34 | a truthy memo is returned unchanged; otherwise the hash of the serialised data is stored and returned |
| Tree.ElementHashMemoised | src/background/Tree.ts:28-34 | two calls give the same hash, that of the data |
| Tree.Element.Clone | src/background/Tree.ts:36-41 | a new element with the same data and the given location, or the old one |
| Tree.Element.WithLocation | src/background/Tree.ts:43-45 | a new element with the same data and only the location changed |
| Tree.Draw.constructor | src/background/Tree.ts:96-104 | children, location and loaded as given; id and memo undefined |
| Tree.FindDrawNeedsId | src/background/Tree.ts:96-115 | a new drawing is found under no id until one is assigned, and then under that id |
| Tree.UnsetIdFindsNothing | src/background/Tree.ts:110-115 | a drawing with an undefined id is found under no id |
| Tree.FindDrawOnlyOwnId | src/background/Tree.ts:110-115 | a drawing with an id is found under that id and no other |
| Tree.Draw.FindElement | src/background/Tree.ts:117-119 | the first child with the id, or nothing iff no child has it |
| Tree.FindElementViaFindItem | src/background/Tree.ts:117-119 | `findElement` is `find` over the children with `findItem` as the callback |
| Tree.Draw.Hash | src/background/Tree.ts:121-143 | a truthy memo under `"true"` is returned and no child is touched. Without one, an unloaded drawing fails. Otherwise every child's memo ends as its own `hash` leaves it, and the hash of the id and one `{}` per child is stored and returned |
| Tree.HashChildren | src/background/Tree.ts:136-138 | after the `map` of `child.hash(true)`, every child's memo is kept when truthy and is the hash of its data otherwise, also for a child listed twice |
| Tree.DrawHashInputCountsChildren | src/background/Tree.ts:133-140 | for a fixed id, hash inputs are equal iff the child counts are |
| Tree.SameCountSameHash | src/background/Tree.ts:133-140 | two drawings with the same id and different single elements hash alike |
| Tree.HashIsStale | src/background/Tree.ts:121-125 | adding a child after the first hash does not change the drawing's hash |
| Popup.SelectedTab | src/Popup/hooks/useSidebarSelected.hook.tsx:3-14 | one of four tabs. "Favorites" iff the selection is "Favorites", "Results" iff "Results", "Folder" iff it starts with `folder:` |
| Popup.TabAgreesWithFilter | src/Popup/hooks/useSidebarSelected.hook.tsx:3-14 | the tab and the branch the filter takes always agree |
| Popup.InitialSelectionIsAll | src/Popup/hooks/useSidebarSelected.hook.tsx:12-22 | the initial `""` and `"All"` show every drawing under "All" |
| Popup.Select | src/Popup/utils/filter-and-sort-drawings.util.ts:22-24 | `filter` keeps exactly the elements passing the test, each as often as in the input, and everything when all pass |
| Popup.SelectAppend | src/Popup/utils/filter-and-sort-drawings.util.ts:22-24 | `filter` keeps the input order: filtering a concatenation concatenates the filtered parts |
| Popup.FindFolder | src/Popup/utils/filter-and-sort-drawings.util.ts:16 | the first folder in the list with the id, or nothing iff none has it |
| Popup.Filtered | src/Popup/utils/filter-and-sort-drawings.util.ts:13-44 | unknown folder: empty. Folder, Favorites and Results keep exactly the matching drawings. Any other selection keeps all |
| Popup.EmptySearchShowsNamed | src/Popup/utils/filter-and-sort-drawings.util.ts:32-39 | an empty search term shows exactly the drawings with a name |
| Popup.SearchIgnoresCase | src/Popup/utils/filter-and-sort-drawings.util.ts:36 | terms that lower-case alike show the same drawings |
| Popup.LexLeTotal | src/Popup/utils/filter-and-sort-drawings.util.ts:50 | the name order is total |
| Popup.LexLeTransitive | src/Popup/utils/filter-and-sort-drawings.util.ts:50 | the name order is transitive |
| Popup.LexLeAntisymmetric | src/Popup/utils/filter-and-sort-drawings.util.ts:50 | the name order is antisymmetric |
| Popup.LeTotal | src/Popup/utils/filter-and-sort-drawings.util.ts:46-65 | for every key, any two drawings are comparable |
| Popup.LeTransitive | src/Popup/utils/filter-and-sort-drawings.util.ts:46-65 | for every key, the comparator's order is transitive |
| Popup.LastCreatedOldestFirst | src/Popup/utils/filter-and-sort-drawings.util.ts:47-48 | by creation, `a` may precede `b` iff it is not newer |
| Popup.LastModifiedOrder | src/Popup/utils/filter-and-sort-drawings.util.ts:51-61 | two `updatedAt`s: newest first. One `updatedAt`: that drawing first. Neither: a tie |
| Popup.NoUpdateTimesAllTie | src/Popup/utils/filter-and-sort-drawings.util.ts:51-61 | records without `updatedAt` all tie by last modification |
| Popup.LastModifiedIgnoresModification | src/Popup/utils/filter-and-sort-drawings.util.ts:51-61 | two records modified at different times tie as written; the intended comparator puts the newer first |
| Popup.CompareIntended | src/interfaces/drawing.interface.ts:17 | the comparator with the last-modification key read from `lastModified` |
| Popup.IntendedNewestFirst | src/Popup/utils/filter-and-sort-drawings.util.ts:51-61 | the intended order puts the newest modification first and is total and transitive |
| Popup.SwapDown | src/Popup/utils/filter-and-sort-drawings.util.ts:46 | swapping two neighbours keeps the multiset |
| Popup.InsertingStep | src/Popup/utils/filter-and-sort-drawings.util.ts:46 | moving the inserted drawing down one place keeps the insertion state |
| Popup.InsertingDone | src/Popup/utils/filter-and-sort-drawings.util.ts:46 | once the inserted drawing stops, the prefix is sorted |
| Popup.InsertStep | src/Popup/utils/filter-and-sort-drawings.util.ts:46 | one insertion: the prefix grows sorted, the contents are a permutation, the suffix is untouched, and an all-tie array is unchanged |
| Popup.SortInPlace | src/Popup/utils/filter-and-sort-drawings.util.ts:46-65 | the in-place sort leaves the array sorted and a permutation; an all-tie array is unchanged (stability) |
| Popup.FilterAndSortDrawings | src/Popup/utils/filter-and-sort-drawings.util.ts:5-68 | the result is the filtered drawings, sorted. The default branch sorts and returns the caller's array; every other branch builds a new array and leaves the caller's alone |
| Popup.LastModifiedKeepsListedOrder | src/Popup/utils/filter-and-sort-drawings.util.ts:51-61 | sorting stored records by last modification returns them in their listed order |
| CustomDomains.AnyOriginIn | src/lib/custom-domaints.utilts.ts:20 | true iff some domain's origin occurs anywhere in the URL |
| CustomDomains.IsAnExcalidrawPage | src/lib/custom-domaints.utilts.ts:12-21 | an excalidraw.com URL gives true. Any other URL gives true iff a stored origin occurs in it. An undefined URL throws iff a domain is stored |
| CustomDomains.ExcalidrawUrlIgnoresStore | src/lib/custom-domaints.utilts.ts:13-15 | an excalidraw.com URL is recognised whatever is stored |
| CustomDomains.EnabledIgnored | src/lib/custom-domaints.utilts.ts:20 | lists that differ only in `enabled` give the same answer |
| CustomDomains.MissingListMeansNo | src/lib/custom-domaints.utilts.ts:7-9 | with nothing stored, any other URL is not recognised |
| CustomDomains.UndefinedUrl | src/lib/custom-domaints.utilts.ts:13-20 | a tab without a URL throws iff some domain is stored |
| CustomDomains.OriginAnywhereInUrl | src/lib/custom-domaints.utilts.ts:20 | a page on another host that carries the origin in its path is recognised |

## Left out

- The Google Drive client (saving, listing, downloading, renaming and deleting files) is a set of parameters: a modified time or its absence, the file list, and a download function. DELETE_DRAWING therefore has no local effect to model. The cloud half of RENAME_DRAWING is not modelled.
- The AUTO_SAVE handler is not modelled: it generates a random id and injects a page script, so it has no local state.
- The onInstalled content-script re-injection is not modelled; it is browser plumbing.
- SHA-256 and `hashJSON`, `JSON.parse`, `JSON.stringify` of drawing data, and the microdiff structural diff are function parameters. Key order and JSON escaping are not modelled; `Tree.DrawHashInput` writes ids without escaping.
- Clocks are parameters: "now" as an ISO string in drawing records, integer milliseconds elsewhere. `Date` parsing, invalid dates (NaN) in the sort, and `Date.now().toString()` versions are not modelled.
- The timezone offset of `new Date(2400, 0, 1)` is a parameter.
- `localeCompare` is modelled as code-unit order, and `toLowerCase` as ASCII lower-casing.
- Popup.SortInPlace: V8's sort algorithm is not modelled. An insertion sort stands for it. Both are stable, so the proved contract (sorted, a permutation, all-tie input unchanged) holds for either. Stability in general (two tied drawings keep their input order) is not stated; only the all-tie case is.
- Popup.FilterAndSortDrawings: runs the comparator as written (on `updatedAt`); the intended comparator is proved separately (see Findings).
- The caching adapter's `getLabel`, `getBookmarksTree`, `acceptsBookmark`, `setData`/`getData` and the sync hooks are not modelled: they are URL parsing and data access with no state to prove about.
- CachingAdapter: ids are integers, so the `String(parentId)` comparison is plain equality. Look-ups return the first pre-order match, which assumes unique ids. The cache is a value, so the source's object sharing (one node reachable twice) is not represented. `traverse` is taken to be pre-order.
- CachingAdapter.Adapter.BulkImportFolder: the clone of the imported folder is a value copy.
- Mappings: item types other than bookmark and folder (which make `mapId` throw on a missing table) are not represented. Numeric ids and the id `0` are not represented. `persist` is storage I/O.
- Diff.Diff.Clone and Diff.FromJSON: payloads are values, so `structuredClone` and `clone(false)` need no copy; `fromJSON` mutating its input objects is not modelled.
- Diff.FindChain: the tree API it calls (`findFolder`, `findItem` on folders) is not part of this model. It is an abstract containment relation on a flat tree of items.
- Diff.Diff.Map: it returns an error result where the source throws.
- Background.LocalStore.Update: the hash is a parameter computed from the payload and the stored record. The cloud save's failure is the absence of a modified time.
- Background.LocalStore.LoginResult: a failing file listing is modelled (it leaves only cloudFolderId cleared); per-file errors other than a failed download are not modelled. The `getAuthenticatedUser` and restore-point writes are not modelled.
- Promise.all versus Promise.allSettled, awaits, and concurrent storage access: every handler and script runs to completion, one at a time.
- AssetGc.FilesStore.SwitchDrawing: the UPDATE_DRAWING it sends is taken as already applied in the `records` it reads. The `beforeunload` listener's writes are returned as a value. The page navigation is not modelled.
- AssetGc: file-store keys are strings (`key.toString()` is the identity).
- Tree.Draw.Hash: each child's memo is written when that child's own hash promise settles; the model writes the children's memos in list order, before the drawing's own hash is stored.
- `getId`, `findItemFilter`, `hydrate` and the `visit*` methods of the tree items are not modelled: they are accessors or forward to the resource adapter.
- The user interface, console logging, and `Diff.inspect` are not modelled.

## Findings

| source | as written | input that shows it | evidently intended | confidence | as-written member | corrected member |
|---|---|---|---|---|---|---|
| src/background/index.ts:370-399 | LOGIN_RESULT collects the Drive file ids (`file.id`) and clears lastSync on every `drawing:` record whose id is not in that set | a record `drawing:1` with a cloud file whose excalisave id is `drawing:1` and whose hash matches: the file loop marks it synced, then the clearing pass removes that lastSync | compare against the files' excalisave ids, so drawings present in the cloud keep their lastSync | high; not executed | Background.LoginUndoesSync | Background.CorrectedLoginKeepsSync |
| src/Popup/utils/filter-and-sort-drawings.util.ts:51-61 | sorting by last modification reads `updatedAt`, which stored records do not have (they carry `lastModified`), so every pair ties and the list keeps its stored order | two records with `lastModified` 1000 and 2000 and no `updatedAt`: the comparator returns 0 and the older stays first | order by `lastModified`, newest first | high; not executed | Popup.LastModifiedIgnoresModification | Popup.IntendedNewestFirst |
