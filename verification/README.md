# Collaborative editor: persistence server and client collaboration core

This project is a Dafny model of two parts of a collaborative document editor, with proofs about the model.

**The collaboration server** persists Yjs documents:
- It keeps an append-only log of incremental updates per document.
- It keeps at most one full snapshot per document.
- It projects the document title into the `documents` table through a debounce timer per slug.
- It compacts a document after 300 changes, or after one idle minute. Compaction stores a snapshot, then deletes the log.

**The client side** covers:
- A reference-counted room registry with delayed disposal.
- The awareness readers: which users are online, and the newest "roles changed" token.
- The hooks that keep the caller's own role fresh.
- The hooks that keep the collaborator list fresh and edit it optimistically.
- The display order of collaborators.
- The input validation of folder creation.

Modules, one per source file:

| module | file |
|---|---|
| `HpDatabase` | `server/hpDatabase.js` |
| `CollabServer` | `server/index.js` |
| `Registry` | `client/lib/collab/registry.ts` |
| `Awareness` | `client/lib/collab/awareness.ts` |
| `MyRole` | `client/lib/collab/hooks/useMyRoleRealtime.ts` and `fetchMyRole` |
| `SortedCollaborators` | `client/lib/collab/hooks/useSortedCollaborators.ts` |
| `Collaborators` | `client/lib/collab/hooks/useCollaborators.ts` |
| `FoldersRoute` | `POST` of `client/app/api/folders/route.ts` |

Supporting modules:
- `Wrappers`: `Option`.
- `Ascii`: ASCII lower-casing, as the `uuid` type applies it to hexadecimal digits.
- `Crdt`: the Yjs engine as a value `Engine(init, apply, encode)` passed to every operation that needs it.
- `Js`: JavaScript values, truthiness and the string `<`.
- `CollabTypes`: roles and collaborator records.

Stateful code is modelled as classes, one per stateful entity:
- The database tables and a ghost journal of the writes performed.
- The server's maps of timers and statistics.
- The registry's `rooms` map.
- The two hooks' refs and state.

Pending timers are explicit:
- Arming a timer adds an entry under a handle that is never reused.
- `clearTimeout` removes the entry.
- Firing a timer is a method of its own.

Outside inputs are parameters:
- Fresh UUIDs, clocks, the URL parser's result and the answers of HTTP requests.
- The success or failure of database calls.

## Model

| member | source | states |
|---|---|---|
| Crdt.FoldAppend | server/hpDatabase.js:145-146 | replaying `a + b` on a document is replaying `a`, then `b` on the result |
| Crdt.FoldSnoc | server/hpDatabase.js:146 | replaying one more update is one more `applyUpdate` at the end |
| HpDatabase.ToJson | server/hpDatabase.js:102 | `Array.from(u8)`: same length, each element the byte value in 0..255 |
| HpDatabase.FromJson | server/hpDatabase.js:103 | `new Uint8Array(arr)`: same length, each element reduced modulo 256 |
| HpDatabase.JsonRoundTrip | server/hpDatabase.js:102-103 | every byte string survives storing in the JSON column and reading back |
| HpDatabase.JsonRoundTripBack | server/hpDatabase.js:102-103 | every array of numbers in 0..255 survives the opposite trip |
| HpDatabase.IsIdShaped | server/hpDatabase.js:152-155 | a key is taken as a document id exactly when it has 36 characters and contains '-' |
| HpDatabase.IdShapeIgnoresCase | server/hpDatabase.js:153 | lower-casing a key does not change whether it is taken as an id |
| HpDatabase.EnsuredDocs | server/hpDatabase.js:106-121 | insert-if-absent: the slug is present afterwards; an existing table is returned unchanged; a new row gets the fresh id and the title "Untitled" |
| HpDatabase.EnsureKeepsOtherRows | server/hpDatabase.js:113-118 | the insert adds exactly the slug's row: every other slug keeps its id and title |
| HpDatabase.EnsuredDocsWellFormed | server/hpDatabase.js:115-118 | inserting under a fresh `randomUUID()` keeps ids unique, id-shaped and lower case, and adds exactly the new id |
| HpDatabase.EnsureTwice | server/hpDatabase.js:106-121 | ensuring the same slug twice inserts once and answers the same id both times |
| HpDatabase.AppendExtendsOneLog | server/hpDatabase.js:151-161 | an accepted append adds exactly the encoded update at the end of its target document's log; every other log, and every log on rejection, is unchanged |
| HpDatabase.IdShapedSlugIsNotResolved | server/hpDatabase.js:152-155 | a 36-character key containing '-' is never resolved as a slug; if no document has that id, nothing is written |
| HpDatabase.AppendIgnoresIdCase | server/hpDatabase.js:152-160 | an id given with upper-case hex digits is accepted, stored and appended exactly as its lower-case spelling, as the `uuid` column reads it |
| HpDatabase.AppendKeepsValid | server/hpDatabase.js:151-161 | an append keeps ids well formed and every logged row's foreign key intact, and is accepted exactly when its target is a document's id |
| HpDatabase.LogOfAppend | server/hpDatabase.js:137-141 | appending a row extends only its own document's log, ordered by insertion |
| HpDatabase.Without | server/hpDatabase.js:182-186 | after the delete, no row of the pruned document remains and only existing rows remain |
| HpDatabase.LogOfWithout | server/hpDatabase.js:182-186 | pruning empties the pruned document's log and leaves every other log intact |
| HpDatabase.LogOfEmptyIff | server/hpDatabase.js:137-143 | the update query is empty exactly when no row belongs to the document |
| HpDatabase.Load | server/hpDatabase.js:124-148 | null exactly when the document has neither a snapshot nor a logged update; a snapshot is answered as stored; otherwise the rebuild of the whole log in order |
| HpDatabase.LoadPrefersSnapshot | server/hpDatabase.js:133-135 | with a snapshot present, the fetch answers it and the log has no influence |
| HpDatabase.LoadAfterAppend | server/hpDatabase.js:137-160 | without a snapshot, an appended update is applied last when the document is rebuilt |
| HpDatabase.LoadIgnoresOtherDocuments | server/hpDatabase.js:124-186 | appends, prunes and snapshots of another document do not change what a document loads |
| HpDatabase.LoadAfterStore | server/hpDatabase.js:164-186 | once the live document is stored as the snapshot, every later load returns its encoding, whether or not the prune ran and whatever is appended later |
| HpDatabase.CompactionPreservesLoad | server/hpDatabase.js:164-186 | compacting a document that equals the replay of its log does not change what it loads |
| HpDatabase.Replay | server/hpDatabase.js:145-147 | the rebuild loop yields the fold of all decoded payloads, in log order, over a fresh document |
| HpDatabase.Database.EnsureDocumentBySlug | server/hpDatabase.js:106-121 | the documents table becomes `EnsuredDocs`; the id answered is the existing one or the fresh one; uniqueness of slugs and ids is kept; the log and snapshots are unchanged |
| HpDatabase.Database.FetchSnapshotBySlug | server/hpDatabase.js:124-148 | ensures the document exists, then answers the stored snapshot, else the rebuild of the log, else null |
| HpDatabase.Database.AppendUpdate | server/hpDatabase.js:151-161 | resolves its target (an id-shaped key lower-cased, else the slug's row); succeeds exactly when the foreign key accepts the id; the log gains exactly the appended row; ids stay well formed |
| HpDatabase.Database.StoreSnapshot | server/hpDatabase.js:164-179 | upsert: updates an existing snapshot, else inserts one; succeeds exactly when the id is a document's, with nothing written otherwise |
| HpDatabase.Database.PruneUpdatesBeforeNow | server/hpDatabase.js:182-186 | deletes every logged update of the document and nothing else |
| HpDatabase.Database.UpdateTitleBySlug | server/hpDatabase.js:189-194 | the documents table becomes `Retitled`: only the title of the slug's row changes, and nothing when no row has the slug; ids stay well formed |
| HpDatabase.RetitledWellFormed | server/hpDatabase.js:189-194 | changing a title keeps every id and the well-formedness of the ids |
| CollabServer.CycleWrites | server/index.js:109-118 | in a store-then-prune cycle, the delete happens only when every step succeeds, and always right after the snapshot upsert |
| CollabServer.CycleAfterResolve | server/index.js:109-118 | once the slug has resolved, the tables and writes of the remaining steps are those of the whole cycle |
| CollabServer.CycleLoad | server/index.js:109-118 | after a cycle that stored its snapshot, the slug's document loads as exactly the stored live state, whatever is appended later |
| CollabServer.ArmTitle | server/index.js:81-84 | the runtime holds the new title timer, no longer holds the slug's cleared one, and keeps every other timer |
| CollabServer.ArmIdle | server/index.js:108-109 | the runtime holds the new 60 s idle timer, no longer holds the slug's cleared one, and keeps every other timer |
| CollabServer.ArmTitleTimer | server/index.js:81-95 | clearing a slug's title timer and arming a new one keeps exactly one tracked title timer per slug, carrying the newest title |
| CollabServer.FireTitle | server/index.js:84-94 | a fired title timer leaves both the runtime and the debounce map |
| CollabServer.ArmIdleTimer | server/index.js:108-119 | replacing a slug's idle timer keeps the bookkeeping between timers and statistics exact |
| CollabServer.FireIdle | server/index.js:109-118 | a fired idle timer leaves the runtime; its recorded handle is stale but harmless |
| CollabServer.SetCount | server/index.js:114 | changing a change counter leaves the timer bookkeeping intact |
| CollabServer.Server.constructor | server/index.js:74-101 | the server starts with no pending timers, titles or statistics |
| CollabServer.Server.ScheduleTitlePersist | server/index.js:77-96 | does nothing when the title equals the last persisted one; otherwise cancels the slug's pending title timer and arms exactly one new timer with the new title (last value wins) |
| CollabServer.Server.FireTitleTimer | server/index.js:84-94 | writes the title (the documents table becomes `Retitled`); remembers it as the last title only when the write succeeds; always removes the timer and the slug's debounce entry; nothing else changes |
| CollabServer.Server.ForgetTitleTimer | server/index.js:87-92 | the fired timer and the slug's entry go; a written title is remembered; the timer bookkeeping stays exact |
| CollabServer.Server.StoreThenPrune | server/index.js:109-118 | resolve, store, prune in that order; a failing step stops the sequence; the tables become `AfterCycle` and the writes `CycleWrites` |
| CollabServer.Server.SnapshotThenPrune | server/index.js:112-113 | after the resolve: the snapshot is stored unless that step fails, and the log is deleted only when both steps succeed |
| CollabServer.Server.Compact | server/index.js:122-134 | the tables become `AfterCycle`; the slug's counter is reset to 0 exactly when every step succeeds; the timers and titles are unchanged |
| CollabServer.Server.ResetCount | server/index.js:114 | the counter drops to 0 when the cycle succeeded; the timer bookkeeping stays exact |
| CollabServer.Server.MarkDocChanged | server/index.js:103-137 | counts the change; replaces the slug's idle timer with one new 60 s timer; at 300 changes compacts at once, the tables becoming `AfterCycle` (snapshot stored, log pruned on success); otherwise the tables are unchanged; the title state is unchanged |
| CollabServer.Server.CountChange | server/index.js:104-109 | the counter grows by one and the slug's idle timer is replaced by a new one; the title state is unchanged |
| CollabServer.Server.FireIdleTimer | server/index.js:109-119 | the idle timer leaves the runtime and compacts the slug: the tables become `AfterCycle`; the counter resets only on success; the title state and the next handle are unchanged |
| CollabServer.Server.Fetch | server/index.js:143-147 | the `fetch` hook answers what `Load` gives for the slug's document |
| CollabServer.Server.Store | server/index.js:148-153 | the tables become `AfterCycle`; once the snapshot is stored, a load of the document returns exactly the stored live state |
| CollabServer.Server.OnChange | server/index.js:173-197 | flags oversize updates; the log gains the appended row (none when the append fails); only after a successful append, schedules a string title (one new 800 ms timer) and counts the change, re-arming the idle timer; a threshold compaction then gives `AfterCycle` of those tables; the journal shows the append's writes first |
| CollabServer.Server.TitleThenCount | server/index.js:184-193 | after the append: a string title different from the last one is scheduled, then the change is counted and the idle timer re-armed |
| CollabServer.AtMostOneTimerPerSlug | server/index.js:74-119 | every slug has at most one pending title timer and at most one pending idle timer |
| Registry.StripTrailingSlashes | client/lib/collab/registry.ts:26 | the result is a prefix with no trailing '/', and what was removed is all slashes |
| Registry.StripIsUnique | client/lib/collab/registry.ts:26 | those three properties determine the stripped string uniquely |
| Registry.StripIdempotent | client/lib/collab/registry.ts:29 | stripping twice equals stripping once |
| Registry.StripIgnoresExtraSlash | client/lib/collab/registry.ts:26 | an extra trailing slash does not change the stripped form |
| Registry.NormalizeWsUrl | client/lib/collab/registry.ts:20-31 | an unparsable URL only loses its trailing slashes; a parsed URL keeps its scheme and authority |
| Registry.NormalizeIgnoresQueryAndHash | client/lib/collab/registry.ts:23-25 | the normalised form does not depend on the query or the fragment |
| Registry.NormalizeFallbackIdempotent | client/lib/collab/registry.ts:28-30 | normalising an unparsable URL twice equals normalising it once |
| Registry.RoomKey | client/lib/collab/registry.ts:33-35 | the key is the normalised URL, then "::", then the slug |
| Registry.RoomKeyInjective | client/lib/collab/registry.ts:33-35 | for slugs without ':', a room key determines its URL and its slug |
| Registry.CreateKeepsTimers | client/lib/collab/registry.ts:43-52 | creating a room keeps pending dispose timers matched with their rooms |
| Registry.AcquireKeepsTimers | client/lib/collab/registry.ts:63-69 | taking a reference and clearing the dispose timer keeps them matched |
| Registry.ReleaseKeepsTimers | client/lib/collab/registry.ts:93-108 | dropping a reference and arming a timer keeps them matched |
| Registry.FireKeepsTimers | client/lib/collab/registry.ts:96-107 | a firing timer deletes exactly its own room |
| Registry.RoomRegistry.constructor | client/lib/collab/registry.ts:16 | the registry starts with no rooms and no timers |
| Registry.RoomRegistry.AcquireProvider | client/lib/collab/registry.ts:39-77 | creates a room (new document and provider for the normalised URL and the slug) when its key is new; takes one reference; cancels a pending dispose; returns the room's provider, document and key; no other room changes |
| Registry.RoomRegistry.SetLocalUser | client/lib/collab/registry.ts:80-86 | records the user on an existing room; an absent room is ignored |
| Registry.RoomRegistry.ReleaseProvider | client/lib/collab/registry.ts:89-108 | drops one reference without clamping; arms exactly one dispose timer when no reference is left and none is pending; an unknown key is ignored |
| Registry.RoomRegistry.FireDisposeTimer | client/lib/collab/registry.ts:96-107 | a firing timer removes a room with no references, and no other room; a cleared timer does nothing |
| Registry.AtMostOneDisposeTimer | client/lib/collab/registry.ts:95-96 | a room never has two pending dispose timers |
| Registry.AcquiredProviderServesSlug | client/lib/collab/registry.ts:39-52 | the provider of the room filed under a slug's key connects to that slug at the normalised URL |
| Js.LessIrreflexive | client/lib/collab/awareness.ts:22 | no string is `<` itself |
| Js.LessTransitive | client/lib/collab/awareness.ts:22 | the string `<` is transitive |
| Js.LessAsymmetric | client/lib/collab/awareness.ts:22 | no two strings are each `<` the other |
| Js.LessTotal | client/lib/collab/awareness.ts:22 | of two different strings, one is `<` the other |
| Awareness.OnlineId | client/lib/collab/awareness.ts:11-12 | `user.id` wins over `userId`; there is no id exactly when both are null or undefined |
| Awareness.ReadOnlineIdsFromAwareness | client/lib/collab/awareness.ts:7-15 | the result is exactly the set of ids of the states that carry one; it is empty without `getStates` |
| Awareness.NewestStep | client/lib/collab/awareness.ts:22 | one step keeps the current value or takes the candidate; a truthy candidate or current value is never above the result; a falsy candidate changes nothing |
| Awareness.NewestOfIsGreatest | client/lib/collab/awareness.ts:17-25 | the running maximum is null exactly when no candidate is truthy; otherwise it is a non-empty candidate that no truthy candidate exceeds |
| Awareness.Newest | client/lib/collab/awareness.ts:19-23 | the loop computes the running maximum |
| Awareness.RolesToken | client/lib/collab/awareness.ts:21 | only string-valued `rolesBump` fields are candidates |
| Awareness.ReadNewestRolesToken | client/lib/collab/awareness.ts:17-25 | null without states or without a non-empty string token; otherwise some peer's token that no other string token exceeds |
| MyRole.FetchMyRole | client/lib/collab/api/docs.ts:1-10 | "none" exactly for 403, 404, or a success whose body names "none" (the my-role route's revocation answer); null for other failures or a body without a role; on success, the body's answer |
| MyRole.Adopt | client/lib/collab/hooks/useMyRoleRealtime.ts:33-35 | a non-null answer becomes the role; a null answer keeps it |
| MyRole.CanEdit | client/lib/collab/hooks/useMyRoleRealtime.ts:69 | editing is allowed exactly for a role other than viewer; a revoked user cannot edit |
| MyRole.AdoptAndEditing | client/lib/collab/hooks/useMyRoleRealtime.ts:69 | after "none" the user cannot edit; a null answer leaves editing rights unchanged; an adopted role can edit exactly when it is not viewer |
| MyRole.BumpToken | client/lib/collab/hooks/useMyRoleRealtime.ts:44-45 | a state has a token exactly when its `rolesBump` is not null or undefined |
| MyRole.ReadNewestBumpToken | client/lib/collab/hooks/useMyRoleRealtime.ts:39-49 | null without states or without a non-empty stringified token; otherwise some peer's token that no other truthy token exceeds |
| MyRole.RoleTracker.constructor | client/lib/collab/hooks/useMyRoleRealtime.ts:15-23 | the role starts as the initial role, with no fetch made and no token seen |
| MyRole.RoleTracker.ResetRole | client/lib/collab/hooks/useMyRoleRealtime.ts:16 | a new initial role replaces the role |
| MyRole.RoleTracker.Refetch | client/lib/collab/hooks/useMyRoleRealtime.ts:25-31 | a fetch starts exactly when none is in flight and it is forced or the last start was at least the interval ago; starting records the time |
| MyRole.RoleTracker.FinishFetch | client/lib/collab/hooks/useMyRoleRealtime.ts:33-36 | the answer is adopted and the in-flight flag clears |
| MyRole.RoleTracker.Attach | client/lib/collab/hooks/useMyRoleRealtime.ts:51-56 | remembers the current newest token when awareness can be read; forces a fetch, which starts exactly when none is in flight; when none starts, the in-flight flag and start time stay |
| MyRole.RoleTracker.OnBumpUpdate | client/lib/collab/hooks/useMyRoleRealtime.ts:58-64 | only a non-empty newest token different from the last one is remembered and forces a fetch |
| SortedCollaborators.CompareAntisymmetric | client/lib/collab/hooks/useSortedCollaborators.ts:13-26 | the comparator is antisymmetric in sign when the collation is |
| SortedCollaborators.CompareTransitive | client/lib/collab/hooks/useSortedCollaborators.ts:13-26 | "not after" under the comparator is transitive when it is for the collation |
| SortedCollaborators.Compare | client/lib/collab/hooks/useSortedCollaborators.ts:13-26 | once presence is known an online collaborator goes first; then an owner goes first; then the collation of names decides, and of ids on equal names |
| SortedCollaborators.Insert | client/lib/collab/hooks/useSortedCollaborators.ts:13 | inserting adds exactly one element |
| SortedCollaborators.Sort | client/lib/collab/hooks/useSortedCollaborators.ts:13 | the sorted copy is a permutation of the input |
| SortedCollaborators.InsertSorted | client/lib/collab/hooks/useSortedCollaborators.ts:13 | inserting into a sorted list keeps it sorted |
| SortedCollaborators.SortSorted | client/lib/collab/hooks/useSortedCollaborators.ts:13 | the sorted copy is in comparator order |
| SortedCollaborators.SortedForDisplay | client/lib/collab/hooks/useSortedCollaborators.ts:7-29 | the hook's result is a permutation of the collaborators, in comparator order |
| SortedCollaborators.OnlineFirst | client/lib/collab/hooks/useSortedCollaborators.ts:14-18 | once presence is known, no offline collaborator precedes an online one |
| SortedCollaborators.OwnersFirst | client/lib/collab/hooks/useSortedCollaborators.ts:19-21 | within a presence group, owners come first |
| SortedCollaborators.NameThenId | client/lib/collab/hooks/useSortedCollaborators.ts:23-26 | among equals in presence and ownership, names ascend, and equal names order by id |
| SortedCollaborators.NotReadyIgnoresPresence | client/lib/collab/hooks/useSortedCollaborators.ts:14 | before presence is known, the online set does not affect the order |
| SortedCollaborators.InsertIgnoresPresence | client/lib/collab/hooks/useSortedCollaborators.ts:14 | the same holds for one insertion step |
| Collaborators.SetPending | client/lib/collab/hooks/useCollaborators.ts:21-27 | marks or unmarks one id and leaves every other id alone |
| Collaborators.WithRole | client/lib/collab/hooks/useCollaborators.ts:92 | every entry of the target gets the role; every other entry is unchanged; the order is unchanged |
| Collaborators.RoleRollbackRestores | client/lib/collab/hooks/useCollaborators.ts:92-102 | a rolled-back role change restores the list when the target still had the old role |
| Collaborators.Without | client/lib/collab/hooks/useCollaborators.ts:116 | exactly the entries of other users remain |
| Collaborators.WithoutConcat | client/lib/collab/hooks/useCollaborators.ts:116 | filtering keeps the relative order of the remaining entries |
| Collaborators.WithoutAbsent | client/lib/collab/hooks/useCollaborators.ts:116 | filtering a list without the target changes nothing |
| Collaborators.Reinsert | client/lib/collab/hooks/useCollaborators.ts:126-129 | the user is present afterwards; a list that already has them is unchanged, otherwise they are appended |
| Collaborators.RemoveRollback | client/lib/collab/hooks/useCollaborators.ts:116-129 | a removal rolled back with no change in between puts the user back, at the end |
| Collaborators.CollaboratorsHook.constructor | client/lib/collab/hooks/useCollaborators.ts:14-16 | the list starts as the initial list, with nothing pending and no fetch |
| Collaborators.CollaboratorsHook.ResetList | client/lib/collab/hooks/useCollaborators.ts:18 | a new initial list replaces the list; every other field stays |
| Collaborators.CollaboratorsHook.BeginRefetch | client/lib/collab/hooks/useCollaborators.ts:31-36 | aborts the previous request, makes a new one current and shows the fetching state |
| Collaborators.CollaboratorsHook.Subscribe | client/lib/collab/hooks/useCollaborators.ts:46-63 | remembers the current newest roles token, drops a pending debounce and starts a refetch; the list, pending ids and broadcast count stay |
| Collaborators.CollaboratorsHook.AbortCurrent | client/lib/collab/hooks/useCollaborators.ts:74-78 | unsubscribing aborts the current request and clears the debounce; every other field stays |
| Collaborators.CollaboratorsHook.FinishRefetch | client/lib/collab/hooks/useCollaborators.ts:37-42 | an aborted request changes nothing; the current one replaces the list when it has data and clears the fetching state; every other field stays |
| Collaborators.CollaboratorsHook.OnRolesUpdate | client/lib/collab/hooks/useCollaborators.ts:65-71 | a new non-empty roles token is remembered and arms the 100 ms debounce; every other field stays |
| Collaborators.CollaboratorsHook.FireRefetchTimer | client/lib/collab/hooks/useCollaborators.ts:51-54 | an armed debounce starts exactly one refetch (a new current request, the previous one aborted); an unarmed one changes nothing; the list, pending ids, token and broadcast count stay |
| Collaborators.CollaboratorsHook.BeginSetRole | client/lib/collab/hooks/useCollaborators.ts:85-93 | refuses when the caller cannot manage, the role is unchanged, the target is the caller or the target is an owner; otherwise applies the role optimistically and marks the target pending; the fetch state stays |
| Collaborators.CollaboratorsHook.FinishSetRole | client/lib/collab/hooks/useCollaborators.ts:95-105 | on success broadcasts a roles token; on failure restores the old role; always clears the pending mark; the fetch state stays |
| Collaborators.CollaboratorsHook.BeginRemoveUser | client/lib/collab/hooks/useCollaborators.ts:110-117 | unless refused or not confirmed, removes the user optimistically and marks them pending; the fetch state stays |
| Collaborators.CollaboratorsHook.FinishRemoveUser | client/lib/collab/hooks/useCollaborators.ts:119-132 | on success broadcasts a roles token; on failure reinserts the user when missing; always clears the pending mark; the fetch state stays |
| Collaborators.OnlyCurrentFetchWrites | client/lib/collab/hooks/useCollaborators.ts:32-41 | among the issued requests, only the current one is not aborted, so only it can write the list |
| FoldersRoute.TrimStart | client/app/api/folders/route.ts:29 | removes exactly the leading white space |
| FoldersRoute.TrimEnd | client/app/api/folders/route.ts:29 | removes exactly the trailing white space |
| FoldersRoute.TrimEdges | client/app/api/folders/route.ts:29 | after both trims neither end is white space; the result is empty exactly when the input is all white space; it is the slice of the input between a white-space prefix and a white-space suffix |
| FoldersRoute.Trim | client/app/api/folders/route.ts:29 | `String.prototype.trim`: the input with a white-space prefix and a white-space suffix cut, no white space left at either end; empty exactly for an all-white-space string |
| FoldersRoute.TrimmedSliceIsUnique | client/app/api/folders/route.ts:29 | such a slice is unique, so the contract of `Trim` determines its result |
| FoldersRoute.FolderName | client/app/api/folders/route.ts:28-29 | the trimmed name cut to its first 80 characters: a prefix of the trimmed name of length min(trimmed length, 80); empty exactly when the name is not a string or is all white space |
| FoldersRoute.MatchesUuidIgnoresCase | client/app/api/folders/route.ts:19 | the pattern's `i` flag: a string matches exactly when its lower-case form does |
| FoldersRoute.MatchesUuid | client/app/api/folders/route.ts:19 | a match has 36 characters, '-' at the four separator positions, a version digit 1 to 5 and hexadecimal digits at both ends |
| FoldersRoute.Response.Status | client/app/api/folders/route.ts:21-64 | each response carries its HTTP code: 401 exactly for the unauthorised reply, 404 exactly for the missing parent, 201 exactly for a created folder, 400 exactly for the two invalid-input replies |
| FoldersRoute.PostFolder | client/app/api/folders/route.ts:21-64 | 401 exactly without a user or with an empty user id; 400 "Invalid name" exactly for an empty cleaned name; 400 "Invalid parentId" exactly for a non-empty parent id that is not a UUID; 404 exactly for a UUID the caller does not own; otherwise 201 with the caller as owner, the cleaned name, and an owned parent or none |

## Left out

- Yjs internals are not part of this model. The engine is a parameter: `init`, `apply` and `encode`. `document.getMap('meta').get('title')` is the `metaTitle` parameter of `OnChange`.
- Asynchronous interleavings are not modelled. Each hook, request and timer callback runs to completion atomically. This leaves out three races:
  - A title write awaiting in one timer while a newer title timer is armed. The older timer's `finally` then deletes the newer entry.
  - The threshold compaction, which is not awaited, overlapping later changes. Its prune can delete updates appended after its snapshot was encoded.
  - Two concurrent `ensureDocumentBySlug` calls racing on the slug's unique key.
- The `created_at` ordering of the update log is modelled as insertion order. Timestamp ties and clock skew are left out.
- `randomUUID()`, `Date.now()` and timer delays are parameters (`freshId`, `now`, explicit timer firing). Elapsed time itself is not modelled.
- Database failures are parameters (`Fault`, `appendFails`, `writeOk`). A failing call is taken to write nothing.
- HpDatabase.Database.AppendUpdate: an id-shaped key is matched against stored ids by ASCII lower-casing. Other spellings the `uuid` type accepts are not modelled, because the key must already be 36 characters with a '-' to be taken as an id.
- CollabServer.Server.OnChange: a failure inside `appendUpdate` is taken to happen before its first write. So a document row inserted just before a failing update insert is not modelled.
- The oversize guard only logs. The model exposes it as the `oversize` result; console output, the Logger extension, connect and disconnect logging, and `server.listen` are left out.
- Registry.NormalizeWsUrl: the platform URL parser and its serialiser are a parameter (`Url`). For a parsed URL only the kept prefix and the independence from query and fragment are stated. Re-encoding done by the `pathname` setter is not modelled.
- Provider and awareness side effects in the registry are left out:
  - `setLocalStateField` and `setLocalState(null)`.
  - `destroy`.
  - The status listener.

  Documents and providers are represented only by their identities.
- SortedCollaborators.SortedForDisplay: `localeCompare` is a parameter. It is only required to be a consistent collation. `Array.prototype.sort` is modelled as a stable insertion sort, which gives the same order as any stable sort under a consistent comparator.
- Strings are sequences of Unicode scalar values. JavaScript compares with `<` and slices with `slice(0, 80)` on UTF-16 code units, so the two can differ for characters outside the Basic Multilingual Plane.
- `uniqueBumpToken()` is not modelled: its value depends on the clock and on randomness. Broadcasting a token is counted by `bumpsSent`.
- MyRole.FetchMyRole: a body role other than owner, editor, viewer or none is not modelled. The source passes any such string through unchecked.
- A thrown `fetchCollaborators` or `fetchMyRole` behaves like a null answer: the list or role is kept, and the fetching or in-flight flag clears.
- `alert`, `confirm` (the `confirmed` parameter), `console.error` and React rendering are left out.
- MyRole.RoleTracker.Attach: an awareness object that has `getStates` but no `on` is taken as unreadable, as it is when `getStates` is missing.
- The `GET` handler of the folders route is left out, as is the request-body parse failure (`Body(Nullish, Nullish)` stands for it).
- In the folders route, the `created_at` and `updated_at` columns and failures of the insert are left out. UUID comparison in the parent lookup is modelled as lower-casing, as the database's `uuid` type compares.
