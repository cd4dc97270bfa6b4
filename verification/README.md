# Outpost, modelled and proved in Dafny

This project models the decision-making core of Outpost, the panel and node agent that manage a
private proxy server, and proves what that core promises. It verifies with Dafny 4.11:
`dafny verify dfyconfig.toml`.

Paths in this file are relative to the root of the Outpost repository.

## What is modelled

**Preset upgrades** (`src/server/adapters/engine-presets.ts`). `PresetTree.dfy` has the parsed
JSON and YAML trees and the choice of the field that identifies array items. `PresetMerge.dfy` has
the three-way merge as a function. `PresetConflicts.dfy` tells, by walking one path through the
three trees, which conflict is reported there. `PresetMerger.dfy` is the merge as the program runs
it, with loops that push onto one shared conflict list. `PresetAgain.dfy` tells when merging into a
merged tree changes nothing, and `PresetReports.dfy` when it reports the same conflicts.
`PresetOrder.dfy` tells the items of a merged array by their places in the three arrays
(`Selections.dfy` picks places), and the identifying field by the strings of the items.
`DocumentSync.dfy` says what an edited document is, node by node, and `DocumentEditor.dfy` is the
edit as the program runs it: deletions, insertions and splices on one mutable document.
`DocumentAliases.dfy` says which nodes an edit leaves and what the aliases of the edited document
read as, and `DocumentWriting.dfy` when that document can be written as text. `DocumentItems.dfy`
tells which old node every part of an edited document is, by keys, strings and equal values, and
`DocumentOrder.dfy` when it can be written, by the order of its nodes. `PresetUpgrade.dfy` joins
merge, edit and writing.

The re-merge fixpoint does not hold for all templates. An array's items may be identified by
another field in the merged result than in the inputs, and then the second merge pairs them
differently. `PresetAgain.RemergeExact` gives the exact condition for the tree (`Steady`) and
`PresetReports.SameReportsExact` that for the conflicts (`SameReports`), both told of the three
templates before any merge; `SameShape` is a simple test that implies both, and two families of
templates fail.

Nor does an edited document always read as the merged template: a scalar, list or mapping that is
anchored and named by an alias elsewhere is edited in place, and the alias changes with it.
`DocumentAliases.EditReadsExact` gives the exact condition on the document before the edit and the
template wanted.

**Connection lifecycle** (`src/server/services/connections.ts`,
`src/server/services/connection-sync.ts`, `src/server/services/engine-runtime.ts`).
`ConnectionRows.dfy` has the rows and every transition as a function; `ConnectionStore.dfy` is the
service that changes the tables statement by statement inside transactions. `Lifecycle.dfy` is the
whole as a machine of atomic steps, split at every `await`: requests at any time, jobs queued for
one lock, the holder driving the engines one call at a time, any call failing with the connection it
was about in an unknown state, a cancelled job that still runs its tail, and the process stopping
anywhere. `LifecycleInvariant.dfy` proves what every step keeps without any assumption;
`LifecycleRequests.dfy` and `LifecycleJobs.dfy` tell, for every state a run reaches, exactly when
each request is accepted, which call a job makes first, and everything that changes;
`LifecycleEngines.dfy` what the engines hold, `LifecycleTheorems.dfy` what that means, and
`LifecycleStrays.dfy` which requests can part engines and rows.

Once nothing is under way, the engines hold exactly the connections in use. This needs two kinds of
request to be kept apart from what is running (`Safe`): a suspend while a resume of the connection
is queued or running, and an archive of a connection that was never activated while an engine holds
it all the same, or a task that would load it is queued or running. Both guards are exact: from any
state in agreement, some run that is safe from then on ends with nothing left to do for the
connection and an engine that is wrong about it, if and only if the request was not safe
(`SuspendExact`, `ArchiveExact`).

**The lock** (`src/server/services/connection-sync.ts`). `SnapshotLock.dfy` has the chain of
promises with its map of last links, links resolving at any later time. It is a first-come queue,
which is how `Lifecycle.dfy` uses it. Saving, removing and reordering connection methods run under
the same lock (`src/server/http.ts:359-370`), so `MethodStore.dfy` takes them one at a time.

**GeoSite databases** (`src/server/adapters/geosite.ts`). `ProtoReader.dfy` is the reader with a
moving offset and what a slice holds; `ProtoEncoding.dfy` the canonical encoding it inverts ("Base
128 Varints" and "Message Structure" of the Protocol Buffers encoding). `GeoSiteMessages.dfy` reads
sites, domains and attributes, and `GeoSiteEncoding.dfy` proves the round trip of whole databases.
`GeoSiteRules.dfy` has the rules and their compaction, `GeoSiteTable.dfy` the ordered map of
categories with the removal of tags and the merge of the Chinese categories. `GeoSiteDatabase.dfy`
puts the three routes together, `GeoSiteAgreement.dfy` and `GeoSiteIndex.dfy` prove how they agree,
and `GeoSiteParser.dfy` and `GeoSiteRoutes.dfy` are the loops that change the map in place. What is
accepted and what comes of it is told exactly and without these functions: numbers, fields and
messages byte by byte in `ProtoExact.dfy`, texts, domains and attributes field by field in
`GeoSiteFields.dfy`, the categories of one site in `GeoSiteSites.dfy`, and tags and Chinese
categories name by name in `GeoSiteTags.dfy`.

**Route rules** (`src/server/adapters/subscriptions.ts`). `RouteRules.dfy` says what an ordered rule
list decides for a packet. `RouteRenderers.dfy` has the three ordered formats and what their clients
make of them, `RouteAgreement.dfy` that they decide alike, `RouteLinks.dfy` the grouped profile, and
`RouteLines.dfy` what is written for a suffix, an address block, a country and the catch-all.
A `BLOCK` catch-all is lost in the sing-box profile, since the outbound `block` it names as final is
not emitted; the grouped profile has no rule against QUIC and ignores the catch-all. Both are stated
as exact conditions.

**Session events** (`agent/cmd/outpost-agent/diagnostics.go`). `EventGroups.dfy` has the folding of
events into one another for any plan of folds, `SessionEvents.dfy` which record folds into which,
and `SessionGrouping.dfy` the program's maps, arrays and in-place updates. `SessionFolds.dfy` tells
the folds by times, addresses and connects, and `SessionJournal.dfy` what is read of the journal by
its text.

**Connection methods** (`src/shared/connection-methods.ts`,
`src/server/services/connection-methods.ts`): `MethodCatalogue.dfy`, `MethodStore.dfy` and
`MethodService.dfy`, and `MethodRules.dfy` with exactly which methods can be saved. **Versions**
(`src/server/releases.ts`): `Decimals.dfy`, `Versions.dfy` and, letter by letter, `VersionTexts.dfy`.
`Options.dfy` and `Strings.dfy` are shared by all.

## How to read the model

A method in the table is the program's code in its own form, with loops and fields that change; its
contract ties it to a function of its inputs. The lemmas are about those functions. A thrown error is
`None` or `false`; which error it is, is not told apart. What the platform does is a parameter: UTF-8
decoding, trimming, lower-casing and case folding of text, and keyword, pattern, address-block and
country matching inside the clients. Numbers are unbounded, except that varints and versions keep
the limit of 2^53-1 the program checks.

## Model

| member | source | states |
|---|---|---|
| `PresetMerge.MergedField` | src/server/adapters/engine-presets.ts:328-348 | Whatever branch the merge takes, the merged object holds under every key the merge of what the three objects hold there |
| `PresetMerge.MergedArray` | src/server/adapters/engine-presets.ts:372-399 | An array identified by a field merges to items with distinct ids, in the order of the user and then of the preset, and under every id to the merge of the three items, with the user's item where both sides added it |
| `PresetMerge.SettledExact` | src/server/adapters/engine-presets.ts:299-326 | The merge returns the user's value if and only if, at every place it reaches, the user has taken in what the preset changed |
| `PresetMerge.BackToBase` | src/server/adapters/engine-presets.ts:299-326 | A merge gives back the base only when the user and the preset both are the base |
| `PresetMerge.UnkeyedRemerge` | src/server/adapters/engine-presets.ts:350-370 | An array no field identified merges to a fixpoint, even if the result is identified by a field the second time |
| `PresetAgain.RestsExact` | src/server/adapters/engine-presets.ts:299-411 | Merging the change between any two further trees into the merge of three changes nothing if and only if that rests, told of the five trees without merging any: through the field that identifies the merged items, which items share an id under it, and what each survivor is compared with |
| `PresetAgain.RemergeExact` | src/server/adapters/engine-presets.ts:299-411 | For all trees, merging again with the same base and preset changes nothing if and only if the first merge was steady, a condition on the base, the user and the preset |
| `PresetAgain.SecondKeyExact` | src/server/adapters/engine-presets.ts:401-411 | Which field identifies the merged array in a second merge, told before the first: the first field that identifies the other two arrays and under which the surviving items have distinct strings |
| `PresetAgain.LeftRestsExact` | src/server/adapters/engine-presets.ts:350-370 | For arrays that no field identified, whether a merge into the merged array changes it, told of the values that are left of the three |
| `PresetAgain.YieldsExact` | src/server/adapters/engine-presets.ts:299-399 | A tree is what the merge gives if and only if the three trees say so, place by place |
| `PresetConflicts.MergeBelow` | src/server/adapters/engine-presets.ts:299-399 | Looking below a path and merging commute, at every path the merge can be followed down |
| `PresetConflicts.PathExact` | src/server/adapters/engine-presets.ts:299-399 | At every path: the preset's subtree where the user kept the base, the user's where the preset did, and elsewhere, where the three cannot be merged further, the user's with one conflict, or with none when the base had nothing there |
| `PresetConflicts.ClashReached` | src/server/adapters/engine-presets.ts:299-399 | A conflict is reported only where the merge arrives, and carries exactly the three values found there |
| `PresetConflicts.ClashKeepsUser` | src/server/adapters/engine-presets.ts:317-325 | At the path of every conflict the merged tree holds the user's value |
| `PresetReports.SameReportsExact` | src/server/adapters/engine-presets.ts:299-411 | For all trees, a second merge reports the same conflicts at the same paths if and only if, wherever both merges pair the items of an array by the same field, this holds of every item, and wherever they do not, neither reports anything there |
| `PresetReports.SilentExact` | src/server/adapters/engine-presets.ts:299-399 | No path has a conflict if and only if no place the merge reaches is one the three trees disagree on, and no id was added by both sides |
| `PresetReports.SilentAfterExact` | src/server/adapters/engine-presets.ts:299-411 | Whether a merge into a merged tree reports nothing, told of the five trees |
| `PresetReports.RemergeReportsSame` | src/server/adapters/engine-presets.ts:299-411 | A user tree whose arrays are identified by every field that identifies the base's and the preset's passes both exact tests: the second merge returns the same tree and reports the same conflicts |
| `PresetReports.SecondMergeCanChange` | src/server/adapters/engine-presets.ts:401-411 | A family of templates whose second merge differs from the first, because the result is identified by another field: the fixpoint does not hold for all trees |
| `PresetReports.SecondMergeCanReport` | src/server/adapters/engine-presets.ts:386-394 | A family of templates whose second merge reports a conflict the first did not |
| `PresetMerger.MergeValue` | src/server/adapters/engine-presets.ts:299-326 | Returns the merge, and pushes onto the shared list every conflict of the three trees at or below the path, each once, and nothing else |
| `PresetMerger.MergeObject` | src/server/adapters/engine-presets.ts:328-348 | The loop over keys returns the merged object and pushes exactly the conflicts below it |
| `PresetMerger.MergeArray` | src/server/adapters/engine-presets.ts:350-370 | Returns the merged array, by the identifying field if there is one, and pushes exactly its conflicts |
| `PresetMerger.MergeUnkeyedArray` | src/server/adapters/engine-presets.ts:354-369 | The backward splice loop and the append loop give the user's items without those the preset dropped, followed by the preset's new ones, each once |
| `PresetMerger.MergeKeyedArray` | src/server/adapters/engine-presets.ts:372-399 | The loop over ids returns the keyed merge and pushes exactly its conflicts |
| `PresetMerger.Keyed` | src/server/adapters/engine-presets.ts:413-415 | The map holds under every id the item the array has under it |
| `PresetTree.SameLookupsSameItems` | src/server/adapters/engine-presets.ts:401-415 | Identified arrays with the same ids in the same order and the same item under each are the same array |
| `PresetOrder.IdentifiedBy` | src/server/adapters/engine-presets.ts:401-411 | Arrays that are not all empty are identified by the first of tag, name and id under which every item of each is an object with a string no other item of that array has, and by none if there is no such field |
| `PresetOrder.MergedPlaces` | src/server/adapters/engine-presets.ts:383-397 | Of two items of an identified merged array: the user's stand as in the user's array, the preset's new ones as in the preset's, and every item of the user before every new one |
| `PresetOrder.MergedItem` | src/server/adapters/engine-presets.ts:384-397 | Under every id the merged array has the merge of the three items, with their conflicts, except for an id both sides added with different items: that is the user's, and is the conflict itself |
| `PresetOrder.UnkeyedPlaces` | src/server/adapters/engine-presets.ts:354-369 | An array no field identifies merges to the user's items without those the preset dropped from the base, in the user's order and as often, and then the preset's new ones, each once and in the preset's order |
| `Selections.PlacesExact` | src/server/adapters/engine-presets.ts:357-368 | Picked places are exactly those wanted, in order |
| `DocumentSync.SyncReads` | src/server/adapters/engine-presets.ts:253-297 | With every alias read as when the document was parsed, the edited document reads as the wanted value |
| `DocumentAliases.ComesFrom` | src/server/adapters/engine-presets.ts:253-297 | Every node of the edited document is a node the edit lets stay, with its anchor and reading as wanted, or a new leaf |
| `DocumentAliases.GoesTo` | src/server/adapters/engine-presets.ts:253-297 | Every node the edit lets stay is in the edited document, with its anchor and reading as wanted |
| `DocumentAliases.NamedExact` | src/server/adapters/engine-presets.ts:253-297 | The edited document has a node for each of its aliases if and only if every alias that stays names a node that stays, told of the document before the edit and the wanted value |
| `DocumentAliases.EditReadsExact` | src/server/adapters/engine-presets.ts:253-297 | With aliases followed to the nodes they name, the edited document reads as the wanted value if and only if what is wanted of every node that stays, and that an alias that stays names, is what the alias read as; told of the document before the edit and the wanted value |
| `DocumentAliases.AnchorStays` | src/server/adapters/engine-presets.ts:253-270 | Which changed nodes keep their anchor: a scalar given a scalar, a list given a list, a mapping given a mapping, and no others |
| `DocumentAliases.SharedEdited` | src/server/adapters/engine-presets.ts:255-263 | Asked to change an anchored node and to keep the value of an alias of it, the edit changes the node and leaves the alias |
| `DocumentAliases.SharedUnwanted` | src/server/adapters/engine-presets.ts:253-270 | For every anchored node that keeps its anchor, the alias then names it still and the exact condition fails |
| `DocumentAliases.SharedReads` | src/server/adapters/engine-presets.ts:253-270 | Such a document reads with both changed, which is not what was wanted |
| `DocumentAliases.NumberEdited` | src/server/adapters/engine-presets.ts:269 | An anchored number given another number is such a node |
| `DocumentAliases.SharedNumberReads` | src/server/adapters/engine-presets.ts:253-254 | Its document does read as something |
| `DocumentWriting.WrittenExact` | src/server/adapters/engine-presets.ts:246-250 | Whether the edited document can be written, every alias after the node it names, told of the document before the edit and the wanted value |
| `DocumentWriting.WrittenReadsExact` | src/server/adapters/engine-presets.ts:246-250 | If it can be written, every alias that stays names a node that stays, and the text reads as the wanted value if and only if what is wanted of each such node is what the alias read as |
| `DocumentOrder.WrittenInOrder` | src/server/adapters/engine-presets.ts:250 | A document can be written if and only if each of its aliases comes, in the order of writing, after the node it names |
| `DocumentSync.SyncStays` | src/server/adapters/engine-presets.ts:254 | The edit leaves the document as it is if and only if it already reads as wanted |
| `DocumentSync.ItemKept` | src/server/adapters/engine-presets.ts:281-295 | Every wanted item is the old item of the same-numbered occurrence of its identity, moved and edited, and a new node when there is none |
| `DocumentSync.SurvivorsAreMoved` | src/server/adapters/engine-presets.ts:272-297 | An edited array keeps its own node, and every item whose identity occurs in both keeps the node of the old item, untouched when no field identifies items |
| `DocumentItems.NodeKept` | src/server/adapters/engine-presets.ts:253-270 | A node whose value is wanted is kept untouched; a mapping given an object, a sequence given an array and a scalar given a scalar keep the node; anything else becomes a new one |
| `DocumentItems.FieldTaken` | src/server/adapters/engine-presets.ts:255-263 | An edited mapping has exactly the wanted keys: the old node, edited, under a key it had, and a new one under a new key |
| `DocumentItems.KeyedItemTaken` | src/server/adapters/engine-presets.ts:279-294 | Where a field identifies the items, each place has the old node with the same string, edited to what is wanted there, and a new node when no old item has that string |
| `DocumentItems.KeyedItemKept` | src/server/adapters/engine-presets.ts:279-294 | That node keeps its origin, whatever else of it changes |
| `DocumentItems.EqualItemTaken` | src/server/adapters/engine-presets.ts:280-294 | Where no field identifies them, the k-th of some equal wanted items is the k-th old node with that value, untouched, and a new node if there were not as many |
| `DocumentItems.EditedThere` | src/server/adapters/engine-presets.ts:253-270 | An edit below a path puts the edited node there and changes nothing else; only a scalar that is the whole document is never kept |
| `DocumentEditor.SyncDocument` | src/server/adapters/engine-presets.ts:253-270 | On a document that reads as before, the in-place edits below a path put exactly the synced node there, a scalar given a scalar keeping its node, and change nothing else; they fail if and only if something would have to be written through an alias to a mapping |
| `DocumentEditor.SyncObject` | src/server/adapters/engine-presets.ts:255-263 | The deletions and insertions of keys give the synced mapping |
| `DocumentEditor.SyncArray` | src/server/adapters/engine-presets.ts:272-297 | The splice loop gives the synced sequence |
| `DocumentEditor.PlaceItem` | src/server/adapters/engine-presets.ts:281-295 | One turn of the loop: finds the first unplaced item of the wanted identity or inserts a new one, keeping what is placed and what is left |
| `DocumentEditor.MoveItem` | src/server/adapters/engine-presets.ts:289-292 | Two splices move an item from where it was found to the target position and keep the order of the rest |
| `DocumentEditor.CutRest` | src/server/adapters/engine-presets.ts:296 | The items left over are cut off the end |
| `PresetUpgrade.Upgrade` | src/server/adapters/engine-presets.ts:212-251 | Merges, syncs the user's document and writes it, with exactly the merge's conflicts listed; fails if and only if the edit would write through an alias to a mapping or an alias would come before the node it names; otherwise the text, with aliases followed, reads as the merged template if and only if what is wanted of every node that an alias left names is what the alias read as |
| `PresetUpgrade.UpgradeTwice` | src/server/adapters/engine-presets.ts:212-227 | Upgrading again a document that reads as an upgrade's result leaves it node for node as it is if and only if the first merge was steady |
| `ConnectionStore.Store.FindOpen` | src/server/services/connection-sync.ts:241-246 | The newest pending, running or failed job of a connection |
| `ConnectionStore.Store.CreateJob` | src/server/services/connections.ts:367-381 | Appends a pending job, or is refused when the connection has an open one |
| `ConnectionStore.Store.CancelOpenJobs` | src/server/services/connections.ts:155-158 | The update loop cancels every open job of the connection and no other |
| `ConnectionStore.Store.Create` | src/server/services/connections.ts:54-102 | A transaction of three inserts that all happen or leave the tables as they were |
| `ConnectionStore.Store.PrepareRotation` | src/server/services/connections.ts:129-148 | Refused unless active and not suspended; otherwise the next generation, its link, a pending credential and a rotation job, or nothing |
| `ConnectionStore.Store.PrepareSuspend` | src/server/services/connections.ts:150-165 | Cancels the open job, suspends and queues a suspend job |
| `ConnectionStore.Store.PrepareResume` | src/server/services/connections.ts:167-180 | Does nothing to a connection that is not suspended; otherwise cancels the open job and queues a resume, still suspended |
| `ConnectionStore.Store.PrepareArchive` | src/server/services/connections.ts:210-233 | Cancels the open job, archives, withdraws the link and queues a revoke |
| `ConnectionStore.Store.Suspend` | src/server/services/connection-sync.ts:78-85 | Prepares a suspend only for a connection not suspended or whose open job is a resume |
| `ConnectionStore.Store.Resume` | src/server/services/connection-sync.ts:87-95 | Prepares a resume only for a suspended connection whose open job is not one |
| `ConnectionStore.Store.Retry` | src/server/services/connection-sync.ts:58-70 | Makes the failed open job pending again; without an open job it is an error unless the connection is active or archived |
| `ConnectionStore.Store.ClaimOpen` | src/server/services/connection-sync.ts:174-188 | Claims the open job of a connection unless it is already running, and counts the attempt |
| `ConnectionStore.Store.RecoverInterrupted` | src/server/services/connection-sync.ts:40-48 | Every running job is failed after a restart, and no other job changes |
| `ConnectionStore.Store.ActivateOnly` | src/server/services/connections.ts:238-246 | Revokes the live credentials of other generations and makes the pending one of this generation live |
| `ConnectionStore.Store.RevokeAll` | src/server/services/connections.ts:267-270 | Revokes every credential of the connection and no other |
| `ConnectionStore.Store.CompleteJob` | src/server/services/connections.ts:182-274 | The effect of each kind of job, committed whole or refused |
| `ConnectionStore.Store.Finish` | src/server/services/connection-sync.ts:202-217 | Completes the job after its effect and fails it when the effect throws, but changes the status only of a job still running |
| `ConnectionStore.Store.ActiveCredentials` | src/server/services/engine-runtime.ts:88-100 | Lists exactly the users of the snapshot, each once, and fails if and only if one of them has no usable credentials |
| `ConnectionStore.Store.Authenticate` | src/server/services/connections.ts:323-336 | Finds the connection a password belongs to, and finds none if and only if no accepted credential has it |
| `LifecycleInvariant.KeepGood` | src/server/services/connection-sync.ts:40-246 | Every atomic step, request, claim, engine call, failure, completion or stop, keeps the rows and the queue consistent |
| `LifecycleInvariant.RunGood` | src/server/services/connection-sync.ts:40-246 | So does every run from a fresh installation |
| `LifecycleInvariant.KeepComplete` | src/server/services/connections.ts:182-274 | The effect of a job, even of one cancelled while it ran, keeps the rows consistent, and leaves the connection of a running job with nothing more to do |
| `LifecycleRequests.CreateTaken` | src/server/services/connections.ts:54-102 | In every state a run reaches: a connection is created exactly under an id not taken, provisioning at generation one, with its link, pending credentials and an activation; nothing else changes |
| `LifecycleRequests.RotateTaken` | src/server/services/connections.ts:129-148 | In every state a run reaches: new credentials are issued exactly to a stored, active connection that is not suspended and has no open job; it is rotating to its next generation, with its link, pending credentials and a rotation, and nothing else changes |
| `LifecycleRequests.SuspendTaken` | src/server/services/connection-sync.ts:78-85 | In every state a run reaches: exactly an active connection that is not archived can be suspended; nothing changes if it is suspended and not being resumed, and otherwise it is suspended and its open job gives way to a suspend |
| `LifecycleRequests.ResumeTaken` | src/server/services/connection-sync.ts:87-95 | In every state a run reaches: exactly an active connection that is not archived can be resumed; nothing changes unless it is suspended and not being resumed, and otherwise its open job gives way to a resume |
| `LifecycleRequests.ArchiveTaken` | src/server/services/connections.ts:210-233 | In every state a run reaches: exactly a stored connection that is not archived can be archived, suspended or not; it is archiving without a link, its only open job is a revocation of its generation, and every other row is as before |
| `LifecycleRequests.RetryTaken` | src/server/services/connection-sync.ts:58-70 | In every state a run reaches: exactly a stored connection can be retried; its failed job is pending again and nothing else changes |
| `LifecycleRequests.ClaimTaken` | src/server/services/connection-sync.ts:174-188 | In every state a run reaches: the open job of a connection is claimed exactly if it is not running, counts one more attempt, and waits for the lock behind everything else |
| `LifecycleRequests.ReconcileTaken` | src/server/services/engine-runtime.ts:110-113 | Every engine there is can be reconciled, behind everything that waits for the lock |
| `LifecycleJobs.JobStarts` | src/server/services/engine-runtime.ts:43-108 | In every state a run reaches: a job with the lock never fails before its first call, which asks Xray for everyone in use with the job's connection added or left out, hot where the engine takes single users; only the revocation of a connection without live credentials makes no call |
| `LifecycleJobs.CallLands` | agent/cmd/outpost-agent/main.go:174-203 | What an engine may hold after a call that succeeds, exactly: the target, or what it held with its one user added, or with that user removed if held at the generation |
| `LifecycleJobs.CallBotches` | agent/cmd/outpost-agent/main.go:174-203 | What an engine may hold after a call that fails, exactly: everyone as before or as wanted, and the call's own connection that way or gone |
| `LifecycleJobs.CallsFollow` | src/server/services/engine-runtime.ts:43-73 | Once Xray has taken a job, each optional engine is called in turn to load the same as a whole |
| `LifecycleJobs.JobEnds` | src/server/services/connection-sync.ts:202-217 | In every state a run reaches: a job whose calls are through takes its effect on connections and credentials, even if cancelled meanwhile, is closed if still running, and passes the lock on |
| `LifecycleJobs.JobCutOff` | src/server/services/connection-sync.ts:40-48 | If the process stops right after the effect, the rows have it all the same, every running job is failed and nothing waits |
| `LifecycleJobs.JobFails` | src/server/services/connection-sync.ts:209-217 | A failed call fails its job if still running, and changes no other row |
| `LifecycleTheorems.NothingStuck` | src/server/db/schema.ts:341-345 | Over all runs a connection that is provisioning, rotating, or archived but not yet finished has exactly one open job, of the kind and generation that takes it on |
| `LifecycleTheorems.OnwardRun` | src/server/services/connections.ts:129-274 | Over all runs no connection disappears, generations only grow, and an archived connection stays archived |
| `LifecycleTheorems.OnlyCurrentPasswords` | src/server/services/connections.ts:323-336 | Over all runs a password is accepted if and only if it is that of the current generation of a usable connection, and no connection has two live generations |
| `LifecycleTheorems.OnlyCurrentLinks` | src/server/services/connections.ts:276-284 | Over all runs a link opens a connection if and only if it is of the current generation of a usable connection |
| `LifecycleTheorems.SnapshotsRender` | src/server/services/engine-runtime.ts:88-100 | Over all runs the users of a snapshot have usable credentials, so rendering it does not throw |
| `LifecycleTheorems.RepeatChangesNothing` | src/server/services/connections.ts:182-274 | After a stop between the effect of a job and its closing, over every run from there: while the job is open, running its effect again changes nothing in the rows |
| `LifecycleEngines.KeepAgreeing` | src/server/services/connection-sync.ts:174-219 | Every safe step keeps the engines in agreement with the rows for each connection whose jobs are done |
| `LifecycleEngines.RunAgrees` | src/server/services/connection-sync.ts:174-219 | So does every safe run, from a fresh installation or from any state in agreement |
| `LifecycleEngines.QuietEngines` | src/server/services/engine-runtime.ts:43-108 | Over every safe interleaving of requests, failures, retries and stops: once nothing is queued and no job is open, every engine holds exactly the connections in use, each at its current generation |
| `LifecycleEngines.LandedFair` | src/server/services/engine-runtime.ts:43-73 | A call that succeeds leaves an engine right for everyone else and holding its connection as the job wants |
| `LifecycleEngines.BotchedFair` | agent/cmd/outpost-agent/main.go:174-203 | A call that fails may lose or keep its own connection but leaves the engine right for everyone whose jobs are done |
| `LifecycleStrays.SuspendExact` | src/server/services/connection-sync.ts:78-85 | From any state in agreement: after a suspend, some safe run ends with nothing left to do for the connection and an engine that does not hold it as the rows grant it, if and only if a resume of it was queued or running |
| `LifecycleStrays.SuspendStrays` | src/server/services/connections.ts:194-198 | That run: the tasks before the resume leave, the cancelled resume runs its tail and lifts the suspension, and the suspend then takes the connection out of every engine |
| `LifecycleStrays.ArchiveExact` | src/server/services/connection-sync.ts:195-201 | From any state in agreement: after an archive, some safe run ends with nothing left to do for the connection and an engine that does not hold it as the rows grant it, if and only if the connection was never activated and an engine holds it or a task that would load it is queued or running |
| `LifecycleStrays.QueuedStrays` | src/server/services/connection-sync.ts:188-217 | The run for a queued task: it comes to the head, its call fails after the engine took the connection, and the revoke, with nothing live, makes no call |
| `LifecycleStrays.NeverStrays` | src/server/services/connection-sync.ts:174-219 | No safe run from a state in agreement ends with nothing left to do for a connection and an engine that does not hold it as the rows grant it |
| `LifecycleStrays.UnsafeReached` | src/server/services/connection-sync.ts:78-101 | Safe runs from a fresh installation reach states in which a suspend is not safe, and states in which an archive is not |
| `SnapshotLock.OneAtATime` | src/server/services/connection-sync.ts:248-261 | Over all runs two callers of one lock are never inside together, and whoever is inside or done came before everyone waiting |
| `SnapshotLock.NoEntryNoOne` | src/server/services/connection-sync.ts:258-259 | Over all runs the map has an entry for a lock if and only if someone is inside or waiting, so deleting it lets no one in early |
| `SnapshotLock.ChainIsQueue` | src/server/services/connection-sync.ts:248-261 | Every move of the promise chain is a move of a first-come queue: arriving joins the end, entering and leaving happen at the head, leaving moves it up whether or not the task threw, and other locks do not change |
| `SnapshotLock.HeadEnters` | src/server/services/connection-sync.ts:249-254 | Over all runs, when no one is inside, the first in line can enter once links resolve, without any other caller doing anything |
| `SnapshotLock.Locks.Begin` | src/server/services/connection-sync.ts:248-253 | Up to the wait: finds the last link and replaces it by its own |
| `SnapshotLock.Locks.Proceed` | src/server/services/connection-sync.ts:254-256 | Enters once the link it found has resolved |
| `SnapshotLock.Locks.End` | src/server/services/connection-sync.ts:257-260 | Opens the gate and deletes the entry only if it is still its own |
| `ProtoReader.Reader.ReadVarint` | src/server/adapters/geosite.ts:258-269 | Reads the groups of a varint of at most ten bytes and refuses numbers above 2^53-1, truncated and endless ones |
| `ProtoReader.Reader.ReadTag` | src/server/adapters/geosite.ts:250-256 | Splits a tag into field number and wire type, and refuses field number zero |
| `ProtoReader.Reader.ReadBytes` | src/server/adapters/geosite.ts:287-292 | Returns the announced slice and never passes the end |
| `ProtoReader.Reader.Skip` | src/server/adapters/geosite.ts:279-285 | Advances over exactly the value of the wire type, or refuses |
| `ProtoEncoding.VarintInverts` | src/server/adapters/geosite.ts:258-269 | Every number up to 2^53-1 is read back from its base 128 encoding, wherever it lies |
| `ProtoEncoding.FieldsInvert` | src/server/adapters/geosite.ts:246-292 | Every list of fields is read back from its encoding |
| `ProtoEncoding.Rewritten` | src/server/adapters/geosite.ts:246-292 | Whatever a message looked like, writing its fields canonically keeps them |
| `ProtoExact.VarintExact` | src/server/adapters/geosite.ts:258-269 | A number is read at a place if and only if at most ten bytes there, all but the last marked, make it up, lowest group first, and it is at most 2^53-1 |
| `ProtoExact.FieldExact` | src/server/adapters/geosite.ts:250-285 | A field is read at a place if and only if a tag with a number of at least one stands there and its value lies behind it: a varint, eight bytes, a counted block or four bytes, and nothing of any other wire type |
| `ProtoExact.MessageExact` | src/server/adapters/geosite.ts:246-292 | A message is read as some fields if and only if they lie in it one behind the other from its first byte to its last |
| `GeoSiteMessages.ParseAttribute` | src/server/adapters/geosite.ts:126-134 | The loop returns the last key of the message, or fails with it |
| `GeoSiteMessages.ParseDomain` | src/server/adapters/geosite.ts:110-124 | The loop returns the last type and value and all non-empty attributes in order |
| `GeoSiteMessages.ParseSiteCode` | src/server/adapters/geosite.ts:84-94 | The loop returns the country code, or the other code where it is empty |
| `GeoSiteMessages.ParseSite` | src/server/adapters/geosite.ts:96-108 | The loop returns the code and all domains in order |
| `GeoSiteMessages.SiteIn` | src/server/adapters/geosite.ts:84-108 | The full parse of a site and the parse of its code alone give the same code |
| `GeoSiteFields.TextExact` | src/server/adapters/geosite.ts:84-134 | A text is that of the last block with its number, empty without one, and is read if and only if every such block can be decoded |
| `GeoSiteFields.NumberExact` | src/server/adapters/geosite.ts:110-124 | A number is the last varint with its field number, and zero without one |
| `GeoSiteFields.DomainsExact` | src/server/adapters/geosite.ts:96-108 | The domains of a site are those of its blocks with number two, in order, and are read if and only if all of them are |
| `GeoSiteFields.AttributesExact` | src/server/adapters/geosite.ts:110-124 | The attributes of a domain are the non-empty keys of its blocks with number three, in order, and are read if and only if all of them are |
| `GeoSiteFields.CodeExact` | src/server/adapters/geosite.ts:84-94 | The code of a site is its text with number one, or that with number four where it is empty |
| `GeoSiteEncoding.DatabaseInverts` | src/server/adapters/geosite.ts:84-134 | Every list of sites, with all domains, kinds and attributes, is read back site by site from its encoding, if the decoder gives back the strings in it |
| `GeoSiteRules.ConvertedHosts` | src/server/adapters/geosite.ts:136-147 | What the rules of a parsed domain match: a keyword or pattern as the client matches it, a root domain itself and everything below it, a full domain itself alone |
| `GeoSiteRules.KeepFirst` | src/server/adapters/geosite.ts:149-157 | The filter with a set of seen keys keeps each rule where it first occurs |
| `GeoSiteRules.UniqueIn` | src/server/adapters/geosite.ts:149-157 | Removing duplicates loses no rule and adds none |
| `GeoSiteRules.UniqueDistinct` | src/server/adapters/geosite.ts:149-157 | It leaves no rule twice |
| `GeoSiteRules.UniqueOrder` | src/server/adapters/geosite.ts:149-157 | It keeps the order of first occurrences |
| `GeoSiteRules.CompileRules` | src/server/adapters/geosite.ts:159-165 | The two passes compute the compacted list |
| `GeoSiteRules.CompileIn` | src/server/adapters/geosite.ts:159-165 | A rule is left if and only if it was there and is not an exact domain equal to some suffix without its dot |
| `GeoSiteRules.CompileIdempotent` | src/server/adapters/geosite.ts:159-165 | Compacting twice is compacting once |
| `GeoSiteRules.CompileKeepsHosts` | src/server/adapters/geosite.ts:159-165 | Compacting changes no host's outcome |
| `GeoSiteSites.CompactedExact` | src/server/adapters/geosite.ts:159-165 | Compaction leaves out exactly the names a suffix of the category covers: the name with a dot before it, or the name itself without one |
| `GeoSiteSites.CompactedOrder` | src/server/adapters/geosite.ts:159-165 | It keeps the other rules in the order in which they first come, each once |
| `GeoSiteSites.Refused` | src/server/adapters/geosite.ts:136-147 | A domain is refused if and only if its trimmed value is empty or has a NUL or a line break in it, or its kind is none of the four |
| `GeoSiteSites.RulesGiven` | src/server/adapters/geosite.ts:136-147 | The rules each kind of domain gives, in order; only a root domain with a dot in it gives itself as well as its suffix |
| `GeoSiteSites.CodeAccepted` | src/server/adapters/geosite.ts:229-233 | A code is accepted if and only if, trimmed and in lower case, it is one to eighty letters, digits and marks long |
| `GeoSiteSites.SiteStored` | src/server/adapters/geosite.ts:31-46 | A site replaces the category of its code by the rules of its domains and, for every attribute of them, the tagged category by the rules of the domains that have it, each where it first comes; no other category changes |
| `GeoSiteSites.CodesAdded` | src/server/adapters/geosite.ts:31-46 | Known categories keep their places, and those a site adds come after them, its own first |
| `GeoSiteSites.FieldStored` | src/server/adapters/geosite.ts:24-46 | Which sites make the parse fail, exactly, and which fields and sites are passed over |
| `GeoSiteSites.PassedOver` | src/server/adapters/geosite.ts:25-30 | A site that cannot matter to the request is passed over whatever else stands in it, and every other is stored as without a request |
| `GeoSiteSites.DatabaseRefused` | src/server/adapters/geosite.ts:18-58 | A database is refused if and only if it is empty or longer than 64 MiB, is no message, fails at a site, or, with everything asked for, leaves no category |
| `GeoSiteTags.TagGone` | src/server/adapters/geosite.ts:175-194 | Of the tags of a category the one that repeats the last name of the category is gone and so is the one that says the opposite; every other stays as it is |
| `GeoSiteTags.EveryName` | src/server/adapters/geosite.ts:182-183 | Every category without a mark ends in exactly one name: what follows its last dash, or all of it without one or with one at the end |
| `GeoSiteTags.CategoryLoses` | src/server/adapters/geosite.ts:187-192 | A category that is there stays, without the rules of its tags that say the opposite of its last name, the others in their order |
| `GeoSiteTags.CodeGone` | src/server/adapters/geosite.ts:196-205 | The list of codes loses the same tags and nothing else |
| `GeoSiteTags.ManyMarks` | src/server/adapters/geosite.ts:178-179 | A code with more than one mark is no tag: both routes leave it as it is |
| `GeoSiteTags.ChinaMerged` | src/server/adapters/geosite.ts:207-223 | If geolocation-cn or any category named category-…-cn, or named category-… and tagged cn, has a rule, geolocation-cn holds exactly these afterwards and cn these and the suffix .cn; otherwise nothing changes, and no other category ever does |
| `GeoSiteTags.ChinaOrder` | src/server/adapters/geosite.ts:216-222 | The merged rules come in this order: those geolocation-cn had, then category after category, and .cn last, each where it first comes |
| `GeoSiteParser.Categories.FilterTags` | src/server/adapters/geosite.ts:175-194 | The two loops over the map delete repeating tags and apply the exclusions in order |
| `GeoSiteParser.Categories.MergeChinese` | src/server/adapters/geosite.ts:207-223 | Gathers the Chinese categories in map order and writes the two merged ones, or nothing when there is nothing to gather |
| `GeoSiteParser.Categories.CompileEvery` | src/server/adapters/geosite.ts:53 | Compacts every category in place |
| `GeoSiteParser.Categories.KeepOnly` | src/server/adapters/geosite.ts:54-55 | Deletes the categories that were not requested and keeps the others in order |
| `GeoSiteAgreement.TagsFiltered` | src/server/adapters/geosite.ts:175-194 | The removal of tags never throws; a plain category keeps what none of its exclusions holds, a tagged one is gone if its attribute repeats or excludes the name and untouched otherwise |
| `GeoSiteAgreement.TakenFrom` | src/server/adapters/geosite.ts:187-191 | What a site loses is exactly what the categories excluding it hold |
| `GeoSiteAgreement.SiteRulesIn` | src/server/adapters/geosite.ts:33-44 | A category collects exactly the rules of its domains, and under an attribute exactly the rules of the domains that carry it |
| `GeoSiteAgreement.MergedIn` | src/server/adapters/geosite.ts:207-223 | After the merge the two Chinese categories hold exactly what was gathered from the categories it reads (cn also the country suffix), each rule once; every other category is untouched, and with nothing gathered nothing changes |
| `GeoSiteAgreement.FilterKeeps` | src/server/adapters/geosite.ts:175-194 | Restricting to sites before or after the removal of tags is the same |
| `GeoSiteAgreement.MergeKeeps` | src/server/adapters/geosite.ts:167-173 | A restriction that keeps what the merge reads gives the same requested categories after the merge |
| `GeoSiteAgreement.RequestedIsRestricted` | src/server/adapters/geosite.ts:18-58 | Parsing with requested codes is the full parse restricted to them, rule for rule and in the same order, for every database that parses and has no '@' in a site's code |
| `GeoSiteAgreement.RequestedFinds` | src/server/adapters/geosite.ts:54-57 | A requested category is found with exactly the rules of the full parse, and no other is found |
| `GeoSiteIndex.SameCodes` | src/server/adapters/geosite.ts:60-77 | Both routes name the same codes before tags are removed, unless a site without a code is malformed, when the list of codes fails |
| `GeoSiteIndex.FilteredSet` | src/server/adapters/geosite.ts:175-205 | Both removals of tags leave the same codes |
| `GeoSiteIndex.ListedIsParsed` | src/server/adapters/geosite.ts:60-82 | The list of codes is the list of parsed categories if and only if the sites without a code are well formed and the Chinese categories are listed as they are merged |
| `GeoSiteIndex.ListMissesMerged` | src/server/adapters/geosite.ts:60-82 | A family of databases whose two lists differ: one site in a Chinese category, whose parse has the merged categories and whose list of codes lacks them |
| `GeoSiteRoutes.CollectRules` | src/server/adapters/geosite.ts:33-44 | The loop over domains collects all rules and the rules under each attribute |
| `GeoSiteRoutes.StoreSite` | src/server/adapters/geosite.ts:31-46 | Stores a site and its attributes without duplicates |
| `GeoSiteRoutes.ParseGeoSite` | src/server/adapters/geosite.ts:18-58 | The whole parse, with or without requested codes, computes the restricted, filtered, merged and compacted table, or fails |
| `GeoSiteRoutes.GeoSiteCodes` | src/server/adapters/geosite.ts:60-82 | The code-only loop computes the list of codes, or fails |
| `RouteAgreement.MihomoAgrees` | src/server/adapters/subscriptions.ts:122-127 | For every rule list and packet the Mihomo rules decide as specified: enabled rules in order, IPv6 reject, QUIC reject, first catch-all |
| `RouteAgreement.XrayAgrees` | src/server/adapters/subscriptions.ts:205-210 | For every rule list and packet the Xray rules decide as specified |
| `RouteAgreement.SingBoxAgrees` | src/server/adapters/subscriptions.ts:154-176 | With a catch-all the sing-box profile decides as specified if and only if the packet does not fall through to a first catch-all that blocks; then its outbound is missing and nothing is decided |
| `RouteAgreement.SetsIn` | src/server/adapters/subscriptions.ts:322-338 | Exactly the rule sets the rules refer to are defined |
| `RouteAgreement.SetsOnce` | src/server/adapters/subscriptions.ts:322-338 | Each rule set is defined once, under the tag of its code |
| `RouteAgreement.SetRead` | src/server/adapters/subscriptions.ts:340-349 | A country rule matches through its rule set what it matches itself |
| `RouteLinks.IncyRoutingProfile` | src/server/adapters/subscriptions.ts:269-304 | The loop pushes each rule to one of six lists, with all IPv6 addresses blocked when IPv6 is off |
| `RouteLinks.EachOnce` | src/server/adapters/subscriptions.ts:275-284 | Every rule but a catch-all is in exactly one list |
| `RouteLinks.InOrder` | src/server/adapters/subscriptions.ts:275-284 | Each list keeps the order of the rules |
| `RouteLinks.LinksAgree` | src/server/adapters/subscriptions.ts:269-304 | For a packet at most one action claims and every order of the groups, the grouped profile decides as specified if and only if something claims it or it is not rejected QUIC and the first catch-all is PROXY |
| `RouteLinks.OrderMatters` | src/server/adapters/subscriptions.ts:269-304 | When two actions claim a packet, two orders of the groups decide it differently |
| `RouteLines.SuffixWritten` | src/server/adapters/subscriptions.ts:306-362 | A suffix is written without the dot before it in all four formats alike |
| `RouteLines.CidrWritten` | src/server/adapters/subscriptions.ts:306-362 | An address block is written as it is in all four; Mihomo tells the two families apart by a colon |
| `RouteLines.CountryWritten` | src/server/adapters/subscriptions.ts:306-362 | A country is written as it is; sing-box names its set in lower case |
| `RouteLines.FinalWritten` | src/server/adapters/subscriptions.ts:264-267 | The outbounds of sing-box are the transports, the proxy and the direct one, and the final one is that of the first enabled catch-all, or the proxy without one |
| `RouteLines.SingBoxDecides` | src/server/adapters/subscriptions.ts:154-176 | For every rule list, with or without a catch-all: sing-box decides as specified unless the packet falls through; then a first catch-all that blocks leaves it undecided, any other decides, and without one it is proxied, which the rules leave undecided |
| `SessionGrouping.AddRelated` | agent/cmd/outpost-agent/diagnostics.go:147-162 | The in-place update counts the event, widens the span and counts it under its type and level |
| `SessionGrouping.FindSessions` | agent/cmd/outpost-agent/diagnostics.go:171-182 | One pass over the records gives every record its session and lists the idle disconnects of each session in order |
| `SessionGrouping.OnlyNear` | agent/cmd/outpost-agent/diagnostics.go:188-198 | The loop over candidates with its early break returns the only disconnect within the window, and none when there are two |
| `SessionGrouping.FoldRecord` | agent/cmd/outpost-agent/diagnostics.go:184-203 | Folds one record into the disconnect it belongs to and no other |
| `SessionGrouping.GroupConnectionEvents` | agent/cmd/outpost-agent/diagnostics.go:166-211 | The maps and in-place updates compute the grouped events |
| `SessionGrouping.ReadJournal` | agent/cmd/outpost-agent/diagnostics.go:219-245 | The loop reads the most lines that fit the byte and line budgets, and reports a truncation when lines are left or the line budget is used up |
| `SessionGrouping.ScanConnectionEvents` | agent/cmd/outpost-agent/diagnostics.go:252-258 | Groups what was read, oldest first, and returns the newest groups up to the limit, truncated exactly when lines or groups are left out or the line budget is used up |
| `SessionEvents.TargetExact` | agent/cmd/outpost-agent/diagnostics.go:184-203 | A record is folded into a disconnect if and only if it is an idle stream error and that is the only idle disconnect of its address and session within 1000 ms |
| `SessionFolds.FoldExact` | agent/cmd/outpost-agent/diagnostics.go:166-203 | A record folds into another if and only if it is the idle timeout of a stream with an address, and the other is the only idle disconnect of that address within 1000 ms before or after it with no connect of the address in between |
| `SessionFolds.OutputExact` | agent/cmd/outpost-agent/diagnostics.go:204-211 | The output has one event for each record that folds into none, in the order of the records, with its time, kind, reason and level |
| `SessionFolds.RelatedOrder` | agent/cmd/outpost-agent/diagnostics.go:154-161 | The related events of a group have one entry for every type and level that folded into it, in the order in which these first did |
| `SessionJournal.BudgetExact` | agent/cmd/outpost-agent/diagnostics.go:222-246 | The lines read are as many of the newest as fit into a thousand lines and 512 KiB of text, line breaks included |
| `SessionJournal.OldestFirst` | agent/cmd/outpost-agent/diagnostics.go:252 | The records come out oldest first: as many come before one as later lines were recognised |
| `SessionJournal.AllRecords` | agent/cmd/outpost-agent/diagnostics.go:233-240 | Every line recognised among those read gives one record |
| `SessionEvents.GroupExact` | agent/cmd/outpost-agent/diagnostics.go:147-211 | Each output event is one unfolded record, in order, untouched when nothing folded into it, otherwise with its count one more than its related counts and First <= Sampled <= Last within the window |
| `SessionEvents.GroupKinds` | agent/cmd/outpost-agent/diagnostics.go:154-161 | The related count of every type and level is the number of such records folded in |
| `SessionEvents.Conserved` | agent/cmd/outpost-agent/diagnostics.go:199-209 | The counts add up to the records if and only if no record folds into one that is folded itself |
| `SessionEvents.ConservedWhenApart` | agent/cmd/outpost-agent/diagnostics.go:199-209 | They add up whenever no record is both an idle disconnect and a stream error |
| `SessionEvents.LoneRecordLost` | agent/cmd/outpost-agent/diagnostics.go:184-209 | A lone record that is both folds into itself and disappears |
| `EventGroups.Accounted` | agent/cmd/outpost-agent/diagnostics.go:199-209 | The counts of the groups and the folds lost add up to the events, for every plan of folds |
| `EventGroups.FoldedSpan` | agent/cmd/outpost-agent/diagnostics.go:148-153 | The span of a group is bounded by its own members: both ends are members' times and every member lies within |
| `MethodCatalogue.DefaultsCompatible` | src/shared/connection-methods.ts:33-39 | The default methods stand together for every order of engines |
| `MethodStore.SaveKeeps` | src/server/services/connection-methods.ts:47-59 | An accepted save keeps every two methods compatible |
| `MethodRules.SaveExact` | src/server/services/connection-methods.ts:47-91 | A method is saved if and only if its engine, protocol, name, port and path are all right, told with every reserved name and port, it can stand beside every other method, and, to replace one, that one has its engine and protocol |
| `MethodRules.SavedList` | src/server/services/connection-methods.ts:56 | The list then has it in the place of the one it replaces, or at its end, and nothing else has changed |
| `MethodRules.RemoveTaken` | src/server/services/connection-methods.ts:61-64 | A method is removed if and only if there is one with its id |
| `MethodRules.RemovedList` | src/server/services/connection-methods.ts:65 | The one with the id leaves and the others stay in their order |
| `MethodRules.TakenExact` | src/server/services/connection-methods.ts:36 | A port counts as taken in the search if another service has it or a method with the same transport, enabled or not |
| `MethodRules.PortsFrom` | src/shared/connection-methods.ts:26-30 | The port the search starts from, for every engine and protocol it serves |
| `MethodRules.DefaultsExact` | src/shared/connection-methods.ts:33-39 | The default methods come engine after engine, each with its own protocols, id, name, port and path |
| `MethodStore.RemoveKeeps` | src/server/services/connection-methods.ts:61-66 | So does a removal |
| `MethodStore.ReorderExact` | src/server/services/connection-methods.ts:68-71 | An order is accepted if and only if it is a permutation of the stored ids |
| `MethodStore.ReorderKeeps` | src/server/services/connection-methods.ts:71-74 | An accepted reorder lists the same methods in the given order and keeps them compatible |
| `MethodStore.RunKeeps` | src/server/services/connection-methods.ts:47-91 | Every sequence of saves, removals and reorders, accepted or refused, keeps all methods pairwise compatible |
| `MethodService.SuggestPort` | src/server/services/connection-methods.ts:34-36 | The search ends at the least free port from the default on |
| `MethodService.SuggestionAccepted` | src/server/services/connection-methods.ts:76-91 | A method with the suggested settings is accepted exactly when its name is |
| `MethodService.Service.Commit` | src/server/services/connection-methods.ts:93-107 | Applies the list before storing it, stores nothing when the call fails, and calls with the old list when storing fails; the engine is left with the stored list unless a failed call took effect or the old list was not taken back |
| `MethodService.Service.Save` | src/server/services/connection-methods.ts:47-59 | Stores the new list exactly when it is valid, applied and stored, keeps methods compatible, and keeps engines in step if and only if the engine ends up with the stored list or its own methods did not change |
| `MethodService.Service.Remove` | src/server/services/connection-methods.ts:61-66 | The same for a removal |
| `MethodService.Service.Reorder` | src/server/services/connection-methods.ts:68-74 | The same for a reorder, without an engine call |
| `Versions.ParseVersion` | src/server/releases.ts:10-32 | The loop over identifiers reads a version, or refuses it |
| `Versions.CompareVersions` | src/server/releases.ts:34-55 | The walk with early returns computes the comparison, and fails on a text that is no version |
| `Versions.ParsePrint` | src/server/releases.ts:8-32 | Every version is read back from its printed form |
| `Versions.PrintParse` | src/server/releases.ts:8-32 | Printing an accepted text's version gives back the text |
| `VersionTexts.VersionExact` | src/server/releases.ts:8-32 | A text is read as a version if and only if it is three numbers with dots between them and, behind a dash, dotted identifiers, letter by letter, with numbers at most 2^53-1 |
| `Versions.TotalOrder` | src/server/releases.ts:34-55 | The comparison is antisymmetric, transitive and total, and zero only between equal versions |
| `Versions.EqualTexts` | src/server/releases.ts:34-55 | Two accepted texts compare as equal if and only if they are the same text |
| `Versions.MatchesPrecedence` | src/server/releases.ts:34-55 | A version compares lower if and only if it has lower precedence in section 11 of Semantic Versioning 2.0.0 |
| `Versions.OfferedIsNewest` | src/server/services/application-updates.ts:130-135 | However the releases arrive and the sort orders equals, one is offered if and only if some release is newer than the current one, and it is the newest of all |

## Left out

- Text: JSON templates, which are printed whole and have nothing to edit, YAML layout and comments, placeholder encoding and the rendered form of conflict paths; trees, node identity and paths as steps are modelled instead.
- Object keys carry no order, so the order in which conflicts are listed and object fields are written is not modelled; that each conflict is listed exactly once is.
- Equality of subtrees is structural equality; the program compares key-sorted JSON text, and keys named `__proto__` are not considered.
- A value set in place of anything but a scalar given a scalar is a new node that is a leaf.
- DocumentSync.SyncReads: aliases are taken to read as when the document was parsed; what they read as after the edit, and when the document then reads as wanted, is `DocumentAliases.EditReadsExact`.
- DocumentEditor.SyncDocument: a failed edit leaves the document half edited; the program then keeps the user's text and reports no conflict.
- An alias is known by the node it names, so two nodes anchored under one name are not considered; nor is an alias inside the node it names, which has no value.
- PresetAgain.RemergeExact: the fixpoint is not claimed for all trees, because it fails; the conditions for the tree and for the conflicts (`PresetReports.SameReportsExact`) are exact.
- LifecycleEngines.QuietEngines: claimed for safe runs only, because it fails otherwise; both guards are exact (`LifecycleStrays`).
- Presence, audit, journal, retry times and back-off, the batch drain, and changes of name, colour and avatar of a connection; a job may be claimed at any time instead.
- The two credentials of a generation are one row, and a subscription token is known by its generation; encryption, token derivation and hashing are not modelled.
- The set of engines does not change during a run, and an engine call that outlives a stop of the process has no later effect.
- Begin reads the listener configuration as a choice made at the start of a job (`hot`), so a change of connection methods between two calls of one job is not followed further.
- The lock is told from its promises; that other work of the program runs under it is modelled only for jobs and reconciliations.
- Byte arithmetic of the varint reader is on integers; the program's floating-point sums are exact below 2^53 and are refused from there on.
- GeoSiteAgreement.RequestedIsRestricted: assumes that no site's code has an '@', as in the databases the program reads; the code does not check it.
- Errors of the three GeoSite routes are not told apart, and the order of the codes in the list of codes is not modelled.
- The rendered text of rules: a rule value that looks like another kind of rule to a client (a comma in a Mihomo rule, a prefix in an Xray keyword) is not considered.
- DNS, sniffing, inbounds, outbound transports, headers and links of the subscription formats.
- The choice of the releases that can be installed (channel, archive and signature), before the newer ones are looked for.
- The recognition of journal messages, and the cut of the input stream itself; lines with the record recognised in them are the input.
- MethodService.Service.Commit: a failed call leaves the engine with the list it was sent or with the one it had, and nothing in between.
- GeoSiteEncoding.DatabaseInverts: asks that each string be given back by the decoder; the program's drops a leading byte-order mark, so such strings are not covered.
- The listing of methods with the managed port and path, the input schema, and the syntax of names and paths, which are parameters or preconditions.
- Versions.ParseVersion: the regular expression is modelled as cutting at the first dash and at the points, which accepts the same texts.
- HTTP routing, the command line, web pages, telemetry, traffic accounting, backups and the agent's system calls.
