# KiCadStamp GUI: a verified model

KiCadStamp draws, reads and records things on a live KiCad board from a long-running GUI.
The modules here model the parts of that GUI that hold state over time, and prove what
stays true over every run, every schedule of two threads, every crash point and every
content of the state file:

- **Overlay markers** (`OverlayKeys`, `BoardOverlay`, `OverlayMarkers`, `OverlayFile`,
  `OverlayOwner`): a persistent map from keys to the uuids of drawn shapes, kept in agreement with
  a board that the user edits too. `OverlayMarkers` says what each operation does to the map and
  the board under every way the board and the state file can fail, `OverlayFile` what each read
  and each store of the map does to the state file; `OverlayOwner` has the methods, which go
  through a state file and an adapter object and are proved to do just that.
- **The board connection** (`ConnectTimeout`, `BoardConnection`, `Connection`, `Latency`,
  `ReadGuard`): a connect with an outside timeout as two interleaved threads, the snapshot
  cache, the adapters opened and closed, the latency windows (sorted by `Sorting`), the guard of
  reads from the UI thread.
- **The role table and the identification** (`FieldOverrides`, `RoleTable`, `RoleTableState`,
  `RoleTableEdits`, `RoleTableMemory`, `CellIdentification`): a sparse batch that is a fixed
  point once recorded, a lossy save and restore that keeps the batch, also through the state
  file, and an identification that does not depend on what was clicked.
- **The state file and its clients** (`JsonValues`, `PyText`, `Sequences`, `Settings`,
  `ConcurrentWrites`, `CellEditContext`, `BoardLayers`): crash-safe writes, several writes at once
  through one temporary file, the merge of one key, nested maps read back from any JSON, a
  remembered choice and what can erode it.
- **Smaller protocols** (`SlotExceptionHook`, `ReadOutcome`, `ExplodeGuard`, `ExitProtocol`):
  exact bounds on what is logged, counts that add up, the lock of exploded clusters, the two
  questions on the way out of the program.

Where the source changes an object in place there is a class, and each of its methods is
proved to leave the state that a function of the old state names (`Step`, `Replace`,
`AfterSet`, ...). The results over runs are lemmas about those functions. Everything from
outside is a parameter: what KiCad answers or carries out (`gone`, `Drawing`, `Dialing`,
`selectRaises`), how far a write to disk got (`Fate`), what the user answers (`Answers`).

## Where the code does not do what is expected of it

The model follows the code. In these cases a property one would expect, or the code's own
comments promise, holds only under a condition; the condition is proved exact or the failing
input is given.

- A state file that cannot be opened for reading reads as empty, and one read of the overlay map
  opens it three times. When the first opening fails and the other two do not, the migration takes
  the new map for missing and writes the older one over it: every key of the map is forgotten and
  every older entry is back, also after `forget_all`, and a mere look at the map can do it
  (`OverlayFile.OneReadReplacesTheMapIff`, `OverlayFile.AClearedEntryComesBack`,
  `OverlayMarkers.ALookCanBringTheOlderMapBack`), although `gui/overlay_markers.py:128` promises
  that the migration does nothing once the new key exists. A shape then belongs to two keys if
  it does in the older map (`OverlayMarkers.AlwaysInjectiveIff`).
- A draw that is recorded while the map cannot be read forgets every other key, and removing a
  namespace whose second read fails forgets all namespaces
  (`OverlayMarkers.ForeignKeyIsForgottenIff`), although `gui/overlay_markers.py:322-325` promises to
  leave the others untouched. A marker draw also takes another key's circle near its point for an
  orphan and deletes it (`OverlayMarkers.ForeignShapeIsLostIff`). A remembered context or table
  replaces those of all other cells (`CellEditContext.OtherCellsSurviveIff`), and any `set` that can
  still write drops every other key of the file (`Settings.OtherKeysSurviveIff`).
- Two `set` calls whose read and write halves interleave can lose one of the keys
  (`Settings.NeverClobbersIff`, `Settings.InterleavedSetsLoseAnUpdate`), although
  `gui/settings.py:61-66` promises that components never clobber each other's keys. When the two
  write halves themselves overlap, in the one temporary file they share, one of them is lost
  (`ConcurrentWrites.EveryWriteLandsIff`) and a reader can find an empty or half-written state file
  (`ConcurrentWrites.AWriteCanInstallAnotherOnesText`,
  `ConcurrentWrites.AWriteCanGoOnInTheStateFile`), which `gui/settings.py:41-45` rules out.
- Forgetting the scope of cell `x` of root `/p` also forgets the cells of a root `/p/x` or below
  it (`OverlayKeys.ScopeReachesIff`).
- A root whose slot in the remembered contexts is not a dictionary is never written again while the
  file can be read (`CellEditContext.AMisshapenRootIsNeverWrittenIff`).
- A dial that leaves by something other than an `Exception` makes the caller index an empty list
  (`ConnectTimeout.EmptyResultIsIndexedIff`), and a board is lost when the dial thread's check and
  its end straddle the timeout, even one appended in time
  (`ConnectTimeout.BoardIsLostIffThreadStraddlesTimeout`). A dial that opens an adapter and then
  fails leaves it open for good (`BoardConnection.EveryAdapterIsCurrentOrClosedOnceIff`).
- The caches behind the snapshot are keyed by refdes, so footprints of one refdes share the values of
  the one asked first; and the snapshot shows the values under the store of its last rebuild
  (`BoardConnection.EveryRunIsCoherentIff`). After a store change on a board that cannot forget what it
  resolved, or when the select raises, it is current only if no value in force changed
  (`BoardConnection.StoreChangeIsCoherentIff`).
- The override store strips a symbol uuid when it records and not when it looks up
  (`RoleTable.RecordedValueTakesEffectIff`); two rows of one symbol that ask for different
  values never settle (`RoleTable.RecordingSettlesIff`).
- A cell that says nothing new takes the snapshot's value on restore, and when that is not the
  value in force the row has something to record after a restart
  (`RoleTableState.RestoredBatchIsTheSameIff`, `RoleTableState.BoardValueResurfaces`). A
  refreshed row keeps a key the new read no longer has, and loses it on restore
  (`RoleTableEdits.RefreshedRowMatchesIff`).
- A confirmed layer dialog forgets the layers the present board does not have, and one that could
  not read the memory erases the user's no on the layers left alone
  (`BoardLayers.UntouchedLayerChangesIff`).
- Installing the excepthook wraps itself when somebody put it back after an uninstall
  (`SlotExceptionHook.WrapsItselfIff`).
- `ExplodeGuard.apply_journal` is called the only way to clear the lock; `take_journal` clears it
  too (`ExplodeGuard.LockIsTheLastWord`).
- The exit flag stays up for good when the tray is switched on while a close waits for the
  clusters to be put back; from then on the program can quit without a question
  (`ExitProtocol.EveryWayIsProperIff`, `ExitProtocol.QuitWhileExplodedIsReachable`).

## Model

| member | source | states |
|---|---|---|
| OverlayMarkers.EveryRunKeepsInv | gui/overlay_markers.py:178-423 | over every run of draws, removals, reconciliations, looks at the map, other components' sets, sweeps and user edits, with every opening and write of the state file and every board call free to fail, no shape belongs to two keys and every uuid in the map was issued by the board; the older map, which a failed opening can bring back, is assumed to give no shape to two keys |
| OverlayMarkers.AlwaysInjectiveIff | gui/overlay_markers.py:120-202 | that assumption is exact: from a clean start no run ever gives one shape two keys iff the older map gives none |
| OverlayMarkers.StepKeepsInv | gui/overlay_markers.py:188-398 | one operation, however it fails and whichever map its reads leave in force, keeps both maps injective and free of blank uuids |
| OverlayMarkers.OnlyTheseAreDeleted | gui/overlay_markers.py:220-423 | a shape is deleted iff the board carries it out and it is one the map, as the operation read it, gives to a key the operation is about, or a circle the draw takes for a leftover, or a shape on a swept, enabled user layer |
| OverlayMarkers.ForeignShapeIsLostIff | gui/overlay_markers.py:188-418 | a live shape of another key is deleted iff the board carries that out and the draw takes it for a leftover (within tolerance, and not in the map as read) or the older map came back and gives it to a key the operation is about; never when the map was read and stayed in force |
| OverlayMarkers.StepKeepsTheShapeIff | gui/overlay_markers.py:188-398 | an event that does not concern a key leaves the key its uuid and the shape on the board iff it neither forgets the key nor has the shape deleted |
| OverlayMarkers.KeyKeepsItsShapeIff | gui/overlay_markers.py:188-398 | through any run of events about other things a key has its shape, live, at every moment iff no event of the run takes the uuid or the shape away |
| OverlayMarkers.DrawIsExact | gui/overlay_markers.py:220-269 | after a draw whose deletions succeed, of a marker or of a rectangle, the key owns one live shape, the requested one, its old shape is gone, no unkeyed circle is left within tolerance of a marker, all else is as before |
| OverlayMarkers.DrawShowsWhatWasAsked | gui/overlay_markers.py:220-269 | after a successful draw the key's shape is the circle or rectangle asked for, on the resolved layer, each coordinate cut to the whole nanometre toward zero; of the shapes there were exactly the key's own and, for a marker, the unowned circles no farther than half a radius from the point in either coordinate are gone |
| OverlayMarkers.LeftoversAre | gui/overlay_markers.py:400-418 | what a marker draw takes for a leftover: an unowned circle of its layer whose centre is within half the radius in both coordinates |
| OverlayMarkers.RepeatedDrawsLeaveOneShape | gui/overlay_markers.py:220-269 | of any number of successful draws for one key, markers and rectangles mixed, only the last shape is on the board |
| OverlayMarkers.FailedDrawIsContained | gui/overlay_markers.py:188-247 | whatever fails, a draw deletes only the shapes it meant to replace, adds at most one, and leaves the map as its read left it unless its shape was recorded; the other keys stay iff it did not record over a map with other keys that it could not read and its read did not bring back an older map with different other keys |
| OverlayMarkers.ForeignKeyIsForgottenIff | gui/overlay_markers.py:131-388 | a key that an operation is not about loses its uuid iff a read of the operation brings back an older map without it, a draw is recorded over a map it could not read, a namespace is removed with keys chosen on a good read and popped from a failed one, a reconciliation finds its shape gone, or another component's set loses the file |
| OverlayMarkers.ForeignKeyIsForgottenInRunIff | gui/overlay_markers.py:131-388 | over any run of events about other keys a key has its uuid at every moment iff none of those five happens |
| OverlayMarkers.ALookCanBringTheOlderMapBack | gui/overlay_markers.py:131-194 | a world in which a mere look at the map, whose first opening alone fails, forgets every key and brings the older map back |
| OverlayMarkers.ADrawCanForgetEveryOtherKey | gui/overlay_markers.py:188-202 | a world and a draw after which every other key is forgotten and its shape an orphan |
| OverlayMarkers.ANamespaceCanTakeAnotherAlong | gui/overlay_markers.py:322-327 | a world where removing the namespace "point" forgets "check/R1" |
| OverlayMarkers.ADrawCanDeleteAForeignCircle | gui/overlay_markers.py:400-418 | a world and a draw that deletes another key's live circle |
| OverlayMarkers.ReconcileRestoresAgreement | gui/overlay_markers.py:342-373 | afterwards exactly the keys whose shape is live on the layer remain, the board is untouched, and a second reconcile drops nothing |
| OverlayMarkers.RemovingAKeyForgetsIt | gui/overlay_markers.py:282-313 | the key, and no other, leaves the map as read, when that was read and written; its shape goes if the board lets it |
| OverlayMarkers.RemovingAScopeForgetsWhatIsUnder | gui/overlay_markers.py:295-320 | exactly the keys equal to the scope, or that continue it after a slash, leave the map as read, and exactly their shapes go that the board lets go |
| OverlayMarkers.RemovingANamespaceForgetsIt | gui/overlay_markers.py:322-327 | the same for a namespace, when both reads give the map and the second leaves it in force |
| OverlayMarkers.RemovingANamespaceWithTwoReads | gui/overlay_markers.py:322-388 | with any two reads: what the second one gives loses the keys the first one found in the namespace, and nothing more happens when it found none |
| OverlayMarkers.ForgettingAllForgetsAll | gui/overlay_markers.py:329-338 | the map is empty once that is written, and of the shapes of the map read those go that the board lets go |
| OverlayOwner.OverlayMarkerOwner.EnsureMarker | gui/overlay_markers.py:220-247 | state file and board end as the draw function says, and stay sane; the circle on the board is centred where asked, to the nanometre; the refusal comes exactly when the layer is not an enabled user layer; None exactly without a board or when the draw raised |
| OverlayOwner.OverlayMarkerOwner.ReplaceMarker | gui/overlay_markers.py:228-247 | with the layer found: own shape and near orphans deleted, the circle drawn where asked and recorded |
| OverlayOwner.OverlayMarkerOwner.EnsureBbox | gui/overlay_markers.py:249-269 | the same replacement by a rectangle with the two corners asked for, without the scan for leftovers |
| OverlayOwner.OverlayMarkerOwner.ReplaceShape | gui/overlay_markers.py:237-247 | deletes the doomed shapes, draws, and records only a shape that was drawn |
| OverlayOwner.OverlayMarkerOwner.ForgetKey | gui/overlay_markers.py:282-293 | the key leaves the map, its uuid is returned, the board is not touched, and nothing is written for an unknown key |
| OverlayOwner.OverlayMarkerOwner.ForgetScope | gui/overlay_markers.py:295-306 | exactly the keys at or under the scope leave the map and their uuids are returned |
| OverlayOwner.OverlayMarkerOwner.RemoveKey | gui/overlay_markers.py:308-313 | forgets exactly the key, and deletes the shape if there is a board; without one the key is still forgotten |
| OverlayOwner.OverlayMarkerOwner.RemoveScope | gui/overlay_markers.py:315-320 | the same for the scope itself and every key that continues it after a slash, and for no other |
| OverlayOwner.OverlayMarkerOwner.RemoveNamespace | gui/overlay_markers.py:322-327 | keys chosen on one read of the map are popped from a second one, which finds the file as the first left it; state file, map, older map and board end as the function of the run results says, each read failing in its own way; when both give the map, exactly the namespace and the keys under it go |
| OverlayOwner.OverlayMarkerOwner.RemoveKeys | gui/overlay_markers.py:377-388 | pops the given keys and deletes their shapes, storing the rest |
| OverlayOwner.OverlayMarkerOwner.ForgetAll | gui/overlay_markers.py:329-338 | an empty map is stored and every uuid it had is returned, as a set, and deleted |
| OverlayOwner.OverlayMarkerOwner.ClearMap | gui/overlay_markers.py:333-335 | the state file then holds an empty map, or is as it was if the write failed |
| OverlayOwner.OverlayMarkerOwner.Reconcile | gui/overlay_markers.py:342-373 | raises iff looking the layer up does, which nothing catches; skipped exactly without board, layer or scan; otherwise reports the number of dropped keys and the orphan count |
| OverlayOwner.OverlayMarkerOwner.DropDead | gui/overlay_markers.py:362-368 | exactly the keys whose shape is not on the layer leave the stored map; nothing is written for nothing |
| OverlayOwner.OverlayMarkerOwner.Mapping | gui/overlay_markers.py:188-196 | state file, map in force and older map end as one read leaves them, whichever of its openings fail, and what is returned is the map then in force, or nothing |
| OverlayOwner.OverlayMarkerOwner.Migrate | gui/overlay_markers.py:120-157 | writes the filled legacy slots under their keys iff it does not find the new key, absent or unreadable, and finds some slot filled; returns how many were written |
| OverlayOwner.OverlayMarkerOwner.Store | gui/overlay_markers.py:198-202 | the map in force is the stored one when the write went through and the old one otherwise; the older map goes when the read inside the write failed |
| OverlayOwner.DistinctOrphanPositions | gui/overlay_markers.py:160-175 | the count is the shapes without a centre plus a set of spots pairwise farther apart than the tolerance that covers every circle |
| OverlayOwner.OrphanCircleUuids | gui/overlay_markers.py:400-418 | finds exactly the unkeyed circles of the layer within tolerance, none when the scan fails |
| OverlayOwner.PopAll | gui/overlay_markers.py:300-304 | the rest is the map without the keys; the uuids collected are exactly theirs |
| OverlayOwner.Draw | gui/board_overlay.py:209-241 | creates one shape under a new uuid; None when creation or repaint raised |
| OverlayOwner.RemoveOverlay | gui/board_overlay.py:257-265 | of the given uuids those go that the board carries out, nothing else |
| OverlayFile.OneReadReplacesTheMapIff | gui/overlay_markers.py:131-191 | one read of the map changes the map in force iff the new key exists and could not be read, the older map could, has a slot filled and differs, and the write went through; then the older map is in force |
| OverlayFile.ReadingIs | gui/overlay_markers.py:188-196 | one read does to the map in force and to the older map what the run results assume of a read, and returns the map then in force or nothing, never a blank uuid |
| OverlayFile.StoringSetsTheMap | gui/overlay_markers.py:198-202 | what a completed store wrote is the map in force, even over an unreadable file, and the older map survives it iff the file could be read |
| OverlayOwner.StepKeepsSane | gui/overlay_markers.py:188-398 | each method keeps the map and the older map injective and, with a board, within the uuids the board ever gave out |
| OverlayFile.EntriesComeFrom | gui/overlay_markers.py:120-202 | over any run of owner operations and other components' sets, with each opening and write failing on its own, every entry of the map was in force at the start, or has been drawn since, or is one of the older map and some read of the run replaced the map by it; the older map itself never changes but to go |
| OverlayFile.EveryReadKeepsTheMapIff | gui/overlay_markers.py:128-194 | over any run no read ever replaces the map in force iff at none of them the condition of OneReadReplacesTheMapIff holds |
| OverlayFile.FileStepInventsNothing | gui/overlay_markers.py:120-202 | the same for one event |
| OverlayFile.FileStepIs | gui/overlay_markers.py:120-202 | one such event does to the map and the older map in the file what the run results say of it |
| OverlayFile.AfterForgettingAllOnlyTheseReturn | gui/overlay_markers.py:329-338 | after forget_all, on any state file, an entry that is in the map again was drawn anew, or is one of the older map and a read replaced the map by it |
| OverlayFile.AClearedEntryComesBack | gui/overlay_markers.py:128-338 | with any older map around, a forget_all in which nothing fails and a read whose first opening alone fails bring every older entry back |
| OverlayKeys.CellAnchorKeysCollideIff | gui/overlay_markers.py:96-106 | two slots share a key iff root and cell read the same once joined; for slash-free cells only if all three parts are equal, whatever the roots |
| OverlayKeys.InScopeIff | gui/overlay_markers.py:109-117 | a key is in a scope iff it is the scope, or the scope, a slash and anything |
| OverlayKeys.ScopesOfOneRootAreDisjoint | gui/overlay_markers.py:103-113 | no key is under the scopes of two different slash-free cells of one root |
| OverlayKeys.ScopeReachesIff | gui/overlay_markers.py:103-113 | exactly which keys of other roots a scope takes in |
| OverlayKeys.AScopeCanReachAnotherRoot | gui/overlay_markers.py:103-113 | a root and a cell whose scope takes in a key of another root |
| OverlayKeys.MigrationLosesNothing | gui/overlay_markers.py:120-157 | every filled legacy slot has a key of its own with its own uuid, and nothing is invented |
| OverlayKeys.MarkerAndBboxAreMigrated | gui/overlay_markers.py:138-149 | the migrated map has exactly the keys cell-anchor/root/cell/marker and .../bbox for which the older map holds something, each with that as text |
| OverlayKeys.MigrateLegacy | gui/overlay_markers.py:138-149 | the three nested loops carry exactly the filled slots, skipping whatever is not a dictionary |
| OverlayKeys.MigrateRoot | gui/overlay_markers.py:141-149 | carries exactly the filled slots of all cells of one root on top of what was carried before |
| OverlayKeys.MigrateCell | gui/overlay_markers.py:145-149 | the same for the two slots of one cell; a blank slot is skipped |
| OverlayKeys.CarriesIsRekeyed | gui/overlay_markers.py:138-149 | with distinct keys the migrated map is determined: one entry per slot, each with its value |
| OverlayKeys.StoredMapReadsBack | gui/overlay_markers.py:188-202 | a stored map reads back as itself |
| OverlayKeys.TheMapIsUnderItsKey | gui/overlay_markers.py:188-196 | the map is what stands under "overlay_markers", less what counts as nothing |
| OverlayKeys.TheOlderMapIsUnderItsKey | gui/overlay_markers.py:131-149 | without it, what the migration makes of "cell_anchor_overlay" |
| OverlayKeys.MappingHasNoBlank | gui/overlay_markers.py:188-196 | the map in force holds no blank uuid, whatever the state file holds |
| BoardOverlay.OnlyEnabledUserLayersResolve | gui/board_overlay.py:124-186 | a display name resolves exactly to an enabled user layer shown under it, never to copper, silkscreen or the edge |
| BoardOverlay.NameLeadsToTheFirstDrawingLayer | gui/board_overlay.py:118-169 | a display name leads to the first enabled layer shown under it that is named BL_User_*, BL_Dwgs_User, BL_Cmts_User, BL_Eco1_User or BL_Eco2_User, and to none iff there is none |
| BoardOverlay.UserLayersAreTheDrawingLayers | gui/board_overlay.py:118-129 | the user layers are those, by name, and no copper, silkscreen, mask, paste, courtyard, fabrication, edge or margin layer is one |
| BoardOverlay.MarkerIsWhereAsked | gui/board_overlay.py:198-206 | the circle is centred on the point and passes the point one radius to its right, each coordinate and the stroke cut toward zero to the nanometre |
| BoardOverlay.BoxIsWhereAsked | gui/board_overlay.py:188-195 | the rectangle has the two corners, cut the same way |
| BoardOverlay.DrawnShapesAreSeenWhereAsked | gui/board_overlay.py:278-302 | a drawn marker is listed with its centre less than a nanometre off; a rectangle has none |
| BoardOverlay.ListOverlayShapes | gui/board_overlay.py:278-302 | every shape of the layer once, with its kind and centre, and nothing else |
| BoardOverlay.SweepLayer | gui/board_overlay.py:305-330 | refuses exactly what is not an enabled user layer; otherwise asks for every shape of the layer and counts them |
| BoardOverlay.SweepingTakesTheLayer | gui/board_overlay.py:305-330 | a shape goes iff it is on the swept layer, that is an enabled drawing layer, and KiCad lets it go; a copper, silkscreen or edge layer is never touched |
| Settings.CrashLeavesOldOrNew | gui/settings.py:41-56 | stopped after any number of file steps, over any leftover, the file holds the whole old or the whole new text, the new one only after the replace |
| Settings.FailedWriteIsInvisible | gui/settings.py:41-56 | the same for a write ended by a caught error, with or without the leftover removed |
| Settings.EveryStopIsACase | gui/settings.py:41-56 | for a write stopped after any number of steps: the state file as before, and in the temporary file the text up to there, or nothing if it was removed |
| Settings.SetMergesOneKey | gui/settings.py:80-86 | a set changes its own key and no other, or nothing when it did not commit |
| Settings.OtherKeysSurviveIff | gui/settings.py:30-38 | the other keys survive a set iff the file could be read, or the write failed, or there were none |
| Settings.AnUnreadableFileLosesTheOtherKeys | gui/settings.py:30-38 | a file and a set where they do not |
| Settings.EveryKeyHoldsItsLastWrite | gui/settings.py:30-86 | after any sequence of sets, every failure of their reads and writes included, a key holds its last stored value, is gone when the last to touch it was a set that could not read the file, and else is as it was |
| Settings.NeverClobbersIff | gui/settings.py:61-86 | for any schedule of reading halves and of writing halves that do not overlap: after every step the file is the merge of all writes so far iff each write finds every key but its own as its read saw it |
| Settings.UndisturbedSetsNeverClobber | gui/settings.py:83-86 | in particular when no other write comes between the two halves of a set |
| Settings.InterleavedSetsLoseAnUpdate | gui/settings.py:83-86 | a schedule that loses a key: two sets of different keys, both read before either writes |
| ConcurrentWrites.EveryWriteLandsIff | gui/settings.py:41-56 | of any number of writes through the one temporary file, stepped in any schedule, every one puts exactly its own text in place iff no two overlap; if two do, some write finds no file to put in place |
| ConcurrentWrites.WithoutOverlapTheFileIsWhole | gui/settings.py:41-45 | at every moment of a schedule without overlap a reader finds the file of the start or the whole text of a write that landed |
| ConcurrentWrites.AWriteCanInstallAnotherOnesText | gui/settings.py:46-50 | a schedule of two writes after which the state file is empty: the replace of one installs what the other has just emptied |
| ConcurrentWrites.AWriteCanGoOnInTheStateFile | gui/settings.py:46-50 | a schedule in which a write goes on dumping into what is already the state file, and is then lost |
| ConcurrentWrites.OrderlyMoveIsTheProgramsStep | gui/settings.py:46-50 | without overlap each step is the step of the write whose crash safety Settings proves |
| Settings.Settings.Get | gui/settings.py:80-81 | the value of the key or the default; raises exactly when the top level is not a dictionary |
| Settings.WhatAReaderGets | gui/settings.py:30-38 | a missing, unopenable or undecodable file reads as empty, a dictionary as itself, anything else raises later |
| Settings.Settings.Write | gui/settings.py:41-56 | the disk after each executed step, for every place the write can stop |
| Settings.Settings.Set | gui/settings.py:83-86 | read, change one key, write; raises exactly when the top level is not a dictionary |
| CellEditContext.ContextReadsBack | gui/cell_edit_context.py:100-123 | a remembered context is read back, erases the refs of that cell, and changes nothing of any other |
| CellEditContext.InstanceReadsBack | gui/cell_edit_context.py:126-186 | an identified instance is read back with its refs less the blank ones |
| CellEditContext.TableReadsBack | gui/cell_edit_context.py:189-273 | a table reads back as its rows with a refdes, an empty one as nothing; other cells keep theirs |
| CellEditContext.WritesIff | gui/cell_edit_context.py:100-236 | an operation writes iff it has a root and a cell, for a context or an instance a cluster, no other value in the root's slot, and rows that can be walked |
| CellEditContext.KeptRefsAre | gui/cell_edit_context.py:141-146 | exactly the refs with a role and a part are kept |
| CellEditContext.KeptRowIs | gui/cell_edit_context.py:211-222 | an entry is kept iff it is a dictionary with a refdes, as three texts |
| CellEditContext.KeptTableHasItsCluster | gui/cell_edit_context.py:209-273 | a kept table reads back with its cluster and its rows in order |
| CellEditContext.AnEmptiedRootGoes | gui/cell_edit_context.py:228-231 | dropping a cell drops the root iff no other cell is left |
| CellEditContext.AnyEntryReadsAs | gui/cell_edit_context.py:155-186 | what any stored entry reads as, whoever wrote it: context and refs |
| CellEditContext.AnyTableReadsAs | gui/cell_edit_context.py:239-273 | the same for a table |
| CellEditContext.CleaningTwiceIsCleaning | gui/cell_edit_context.py:189-273 | what was cleaned on writing is not changed on reading |
| CellEditContext.TheTwoKeysAreIndependent | gui/cell_edit_context.py:90-97 | no context write shows in a table, no table write in a context |
| CellEditContext.ContextIsTheLastWritten | gui/cell_edit_context.py:100-186 | through any sequence of writes a cell has the context and refs of the last one written for it |
| CellEditContext.TableIsTheLastWritten | gui/cell_edit_context.py:189-273 | through any sequence of writes a cell has the table last written for it, whatever contexts were written |
| CellEditContext.StaysWellShaped | gui/cell_edit_context.py:100-236 | the stored maps stay maps of maps through any sequence of writes |
| CellEditContext.AMisshapenRootIsNeverWrittenIff | gui/cell_edit_context.py:90-236 | through any run of calls a root whose slot is no dictionary stays so, with nothing remembered for its cells, iff no call writes a map or a file that it could not read |
| CellEditContext.AMisshapenRootStaysIff | gui/cell_edit_context.py:90-236 | the same for one call; a call about that root that can read the file changes nothing |
| CellEditContext.AMisshapenRootRemembersNothing | gui/cell_edit_context.py:100-273 | every cell of such a root reads as nothing: context, refs and table |
| CellEditContext.EntryIsTheLastSaid | gui/cell_edit_context.py:90-236 | through any sequence of calls, every way of failing included, a cell's entry under either key is what the last call that spoke of it said: its own entry, or its loss with a map or a file that could not be read |
| CellEditContext.OtherCellsSurviveIff | gui/cell_edit_context.py:90-97 | a call leaves the other cells alone iff the map could be read, or nothing was written, or there were none; and the other key's map iff the set could read the file, or nothing was written, or it was empty |
| CellEditContext.AnotherCellIsForgotten | gui/cell_edit_context.py:90-123 | a state and a call that forgets another cell's context |
| CellEditContext.FileIsUnchangedIff | gui/cell_edit_context.py:100-236 | a call that meets no failure leaves the file as it was iff a guard refuses it or the entry is there already |
| CellEditContext.Remember | gui/cell_edit_context.py:100-236 | the three remember functions never raise; the state file after each, for every way the read and the write can go |
| CellEditContext.WithEntry | gui/cell_edit_context.py:113-156 | the new map under the key, or None exactly when the body raises |
| CellEditContext.KeepRows | gui/cell_edit_context.py:189-236 | keeps exactly the rows with a refdes, in order, each reduced to its three texts |
| ConnectTimeout.EveryScheduleKeepsInv | gui/connection.py:317-350 | over every schedule of the two threads each does at most what its dial allows, and the order of check, append and timeout is consistent |
| ConnectTimeout.EmptyResultIsIndexedIff | gui/connection.py:317-350 | the caller indexes an empty list iff it was let through and the dial left by something that is no Exception |
| ConnectTimeout.TheEmptyIndexingScheduleExists | gui/connection.py:321-350 | a schedule that ends there |
| ConnectTimeout.NeverReturnedAndClosed | gui/connection.py:321-350 | no board is both returned and closed or closed twice; one is closed only if the dial saw gave_up |
| ConnectTimeout.BoardIsLostIffThreadStraddlesTimeout | gui/connection.py:321-350 | a successful board ends neither returned nor closed iff the dial thread looks at gave_up before the caller sets it and is not gone yet when the caller asks is_alive() |
| ConnectTimeout.ABoardIsLostBeforeTheAppend | gui/connection.py:321-350 | such a schedule: the caller gives up between the check and the append |
| ConnectTimeout.ABoardIsLostAfterTheAppend | gui/connection.py:321-350 | another one: the board is appended in time and the thread is found alive on its way out |
| ConnectTimeout.CallerAlwaysComesBack | gui/connection.py:338-350 | three steps after its time is up the caller has returned or raised, even for a hung dial |
| ConnectTimeout.WhatTheCallerGets | gui/connection.py:317-350 | a caller that did not give up returns the board, raises the error or indexes the empty list, as the dial ended; a hung dial is given up |
| ConnectTimeout.ADialThatEndsEndsItsThread | gui/connection.py:321-337 | unless the dial hangs, four steps of its thread end it, whatever the caller does |
| ConnectTimeout.AnEndedDialIsCollected | gui/connection.py:338-350 | once the thread is gone three steps of the caller give it its answer, and a caller still waiting does not give up |
| BoardConnection.EveryRunIsCoherentIff | gui/connection.py:467-762 | at every moment of every run, whatever failed, the snapshot is the footprints of the last rebuild, each with the values the first footprint of its refdes had under the store of that rebuild; so it is the footprints last read resolved under the store now bound iff each of those values is in force |
| BoardConnection.ReprojectingRunIsCoherentIff | gui/connection.py:467-507 | in particular, when boards can forget and no select raises just after a store change, iff the footprints of each refdes agree in force |
| BoardConnection.SelectIsByFirst | kicadstamp/explore.py:286-388 | through empty caches the select gives every footprint the values of the first one of its refdes |
| BoardConnection.StepKeepsSnapshotInv | gui/connection.py:561-762 | each operation keeps the snapshot the select's answer for the footprints last read and the store now bound |
| BoardConnection.StoreChangeIsCoherentIff | gui/connection.py:467-491 | a store change on a coherent snapshot ends coherent iff, when the board can forget and the select does not raise, the footprints of each refdes agree under the new store, and otherwise no value in force changes |
| BoardConnection.AStoreChangeCanLeaveTheSnapshotStale | gui/connection.py:441-491 | a board that cannot forget, and a change after which the snapshot is stale |
| BoardConnection.RebuiltIsCoherentIff | gui/connection.py:467-747 | after any rebuild, by a connect, a refresh, a board switch or a store change, the snapshot is coherent iff the footprints of each refdes agree, whatever it was before |
| BoardConnection.VersionCountsRebuilds | gui/connection.py:494-509 | the version grows by one exactly on a rebuild, and an equal version means an equal snapshot |
| BoardConnection.BoundStoreIsTheOneSaid | gui/connection.py:561-641 | after an event the held board has the store just loaded from its file, the one of the profile just named or none, the one the dial brought, or the one it had |
| BoardConnection.BoundStoreIsTheLastSaid | gui/connection.py:561-692 | over any run the bound store is the last one loaded, named or brought |
| BoardConnection.HeldBoardIsTheOneRead | gui/connection.py:657-762 | whether a board is held after an event, and whose adapter and footprints it then has |
| BoardConnection.HeldBoardIsTheLastRead | gui/connection.py:657-762 | over any run a held board has the adapter and the footprints of the last connect, refresh or board switch that went through, and none is held once the connection was dropped since |
| BoardConnection.OurEntryIsInForce | kicadstamp/explore.py:264-300 | the value in force is our entry for the symbol, else the board's own of that field |
| BoardConnection.EveryAdapterIsCurrentOrClosedOnceIff | gui/connection.py:657-762 | over every run each adapter ever opened is the current one, never closed, or was closed exactly once, or was opened by a dial that failed and is never closed; the last kind is missing iff no dial failed with its adapter open |
| BoardConnection.StepKeepsOwned | kicadstamp/explore.py:166-190 | one event keeps that account; only a dial that opened an adapter and then failed adds to the abandoned ones |
| BoardConnection.AccountAfter | gui/connection.py:657-762 | which adapters one event opens and which close() counts it changes |
| BoardConnection.SelectResolvesAllIff | kicadstamp/explore.py:264-388 | from any sound cache the select resolves every footprint under the store now bound iff footprints of one refdes have the same values in force |
| BoardConnection.DuplicateRefsBreakTheSnapshot | kicadstamp/explore.py:286-300 | a board where it does not: two footprints of one refdes with different roles |
| BoardConnection.PeekKeepsSound | kicadstamp/explore.py:343-370 | somebody else's select, whatever it filters by, leaves the snapshot alone and in the caches only values in force |
| BoardConnection.Select | kicadstamp/explore.py:343-388 | the loop through the caches yields the row of every footprint |
| BoardConnection.WindowsHoldThisSession | gui/connection.py:511-543 | over every run each window is the last forty valid samples since the connection was dropped; no numbers iff there is none |
| Connection.BoardConnection.Connect | gui/connection.py:657-692 | drops the old adapter first; connected iff the dial and the select succeeded; a board whose select raised is closed, an adapter of a failed dial only if the dial thread did; adapters and snapshot stay as the run results say |
| Connection.BoardConnection.Refresh | gui/connection.py:733-747 | a failed read or select drops the connection |
| Connection.BoardConnection.RefreshIfBoardChanged | gui/connection.py:694-731 | only another board is read again; failed implies the connection is gone |
| Connection.BoardConnection.Disconnect | gui/connection.py:749-762 | closes the adapter once and clears both windows |
| Connection.BoardConnection.RebuildSnapshot | gui/connection.py:505-509 | a select that raises leaves snapshot and version as they were |
| Connection.BoardConnection.Rebind | gui/connection.py:467-491 | binds the store given, forgets and rebuilds if the board can; raises exactly when the select does |
| Connection.BoardConnection.SetProjectConfig | gui/connection.py:561-590 | without a board, or when reading the profile's store raises, only the path changes; otherwise the profile's store is bound, or none without a profile; raises exactly when that read or the select does |
| Connection.BoardConnection.ReloadStore | gui/connection.py:592-641 | a bound store without a file is left alone; one whose file cannot be read raises and changes nothing; else the store just read is bound |
| Connection.BoardConnection.RecordLatency | gui/connection.py:511-519 | a missing or negative sample is ignored |
| Latency.WindowIsTheLastForty | gui/connection.py:386-389 | the bounded queue is the last forty valid samples, in order |
| Latency.WindowIsAtTheEnd | gui/connection.py:511-519 | the i-th sample of the window is the i-th of the last forty valid ones |
| Latency.OneMoreSample | gui/connection.py:511-519 | one more sample goes to the end and pushes the oldest of forty out; a missing or negative one is ignored and zero is not |
| Latency.MedianSplitsTheWindow | gui/connection.py:521-532 | at least half the samples lie on each side of the median, which is between the least and the greatest |
| Latency.MedianIsTheMiddle | gui/connection.py:521-532 | the median is the middle sample, or half the sum of the two middle ones |
| Latency.MedianThenMaximum | gui/connection.py:521-532 | the pair shown is the median first and the maximum second; nothing for an empty window |
| Latency.SortedCounts | gui/connection.py:521-532 | sorting keeps the number of samples on each side of every bound |
| Latency.MaxIsTheGreatest | gui/connection.py:521-532 | the maximum shown is a sample and the greatest |
| ReadGuard.DepthIsTheNumberOfOpenSigns | gui/connection.py:160-174 | for any interleaving of threads a thread's depth is the number of its own open signs, leaving by exceptions included |
| ReadGuard.EveryOffendingSiteIsReportedOnce | gui/connection.py:189-206 | the log names exactly the sites that ever broke the rule, each once |
| ReadGuard.ReadIsRefusedIffItOffends | gui/connection.py:391-430 | a read is refused iff a board is held, the thread is the UI one with no sign open, the caller is not the connection file, and refusing is on |
| ReadGuard.Door.GetBoard | gui/connection.py:391-430 | the getter answers and reports accordingly |
| ReadGuard.Door.LeaveSign | gui/connection.py:160-174 | leaving a block puts back the depth it found |
| RoleTable.RecordingSettlesIff | gui/role_table_model.py:504-535 | the batch is recorded whole and overlaying again leaves nothing more to record iff no row that has something to record has a padded uuid and no two rows of one symbol ask for different values |
| RoleTable.RefusalsStay | gui/role_table_model.py:504-535 | the rows that cannot be recorded are named the same before and after |
| RoleTable.PaddedNeverSettles | kicadstamp/field_overrides.py:258-300 | a row whose uuid has blanks around it asks again after every recording |
| RoleTable.SomeTablesNeverSettle | gui/role_table_model.py:504-535 | a table with a padded uuid and one with two clashing rows |
| RoleTable.AgreedCellsAreInForce | gui/role_table_model.py:172-189 | then every recordable non-blank cell is the value in force |
| RoleTable.ClashNeverSettles | gui/role_table_model.py:504-535 | of two clashing rows one always has something left to record |
| RoleTable.RecordingIsTheBatchAndNothingElse | gui/role_table_model.py:504-535 | an entry after recording is what some row asked for, or is as it was and no row asked |
| RoleTable.RecordedValues | kicadstamp/field_overrides.py:281-312 | recording a list of updates leaves the last value per key and every other entry |
| RoleTable.RecordedValueTakesEffectIff | kicadstamp/field_overrides.py:258-300 | a recorded value comes into force iff the uuid has no blanks around it, or it was in force already |
| RoleTable.UpdateHasItsRow | gui/role_table_model.py:504-535 | the batch holds only what some row asks for |
| RoleTable.AskedIsInTheBatch | gui/role_table_model.py:504-535 | every update some row asks for is in the batch |
| RoleTable.BuildOverrideUpdates | gui/role_table_model.py:504-535 | the loop yields the updates and refusals of the rows, in order |
| RoleTable.RowBatchIs | gui/role_table_model.py:523-534 | the batch of a row: a refusal off the board, else one without a key, else the role and then the cluster, each if not blank and not in force |
| RoleTable.InForceIs | gui/role_table_model.py:173-190 | our entry counts before the board's, per field; the typed text without blanks around it |
| RoleTable.OverlaidRowShows | gui/role_table_model.py:288-308 | an overlaid row has the store's entries for its symbol, and where there is none its own board value is in force |
| RoleTable.PlanRow | gui/role_table_model.py:523-534 | one row: refused off the board or without a key, else at most one update per cell |
| RoleTable.ApplyOverridesLoop | gui/role_table_model.py:288-308 | every row gets our values of its own key, none without a key or a store |
| RoleTableState.RestoredBatchIsTheSameIff | gui/role_table_model.py:374-427 | after saving and restoring the batch is the same, in order, iff no unsaved cell gets a snapshot value that is not in force; refusals always are |
| RoleTableState.SaveAndRestoreKeepsTheBatch | gui/role_table_model.py:374-427 | with a snapshot of the values in force the batch survives |
| RoleTableState.EveryRowComesBack | gui/role_table_model.py:374-427 | no row is dropped and the order is kept |
| RoleTableState.TextComesBack | gui/role_table_model.py:374-427 | a text that says something else than the value in force comes back as typed; any other cell takes the snapshot's value |
| RoleTableState.SavedRowIs | gui/role_table_model.py:384-393 | what is saved of a row |
| RoleTableState.RestoredEntryIs | gui/role_table_model.py:407-427 | what any saved entry becomes: no row without a refdes, else one row with its texts, board columns and key |
| RoleTableState.EveryRowWithARefIsSaved | gui/role_table_model.py:384-393 | exactly the rows with a refdes are saved |
| RoleTableState.ClusterComesBack | gui/role_table_model.py:374-427 | the cluster above the table is saved and comes back |
| RoleTableState.RecordOfIsTheLast | gui/role_table_model.py:137-145 | a refdes stands for the last record that has it |
| RoleTableState.RestoredFieldUpdates | gui/role_table_model.py:396-427 | one cell: the same update, or a new one exactly when the board value resurfaces |
| RoleTableState.BoardValueResurfaces | gui/role_table_model.py:374-427 | an instance where a row with nothing to record has something to record after a restart |
| RoleTableState.SaveTable | gui/role_table_model.py:374-393 | one entry per row with a refdes, in order, cells that say nothing new left blank |
| RoleTableState.RowsFromState | gui/role_table_model.py:396-427 | total on any JSON; what is no table is an empty one |
| RoleTableMemory.RememberedBatchIsTheSameIff | gui/role_table_model.py:374-427 | a table made a state, kept in the state file among any other contexts and tables remembered before and after, read back and made a table again records the same batch iff nothing resurfaces |
| RoleTableMemory.KeptTableReads | gui/cell_edit_context.py:189-273 | keeping a saved table changes nothing about its rows; an empty one is not kept |
| RoleTableEdits.TypedTextSurvives | gui/role_table_model.py:225-308 | through any run of reads, overlays and other rows' edits a cell holds what was last typed into it, its part on the board or not |
| RoleTableEdits.EditKeepsOneRowIff | gui/role_table_model.py:225-285 | an edit keeps one row per refdes, except taking a selection that names one twice |
| RoleTableEdits.EveryTableHasOneRowPerRef | gui/role_table_model.py:225-285 | over any run of edits whose selections name no refdes twice the table has one row per refdes |
| RoleTableEdits.RefreshedRowMatchesIff | gui/role_table_model.py:209-220 | a refreshed row agrees with its read iff it does not keep a key the read lacks |
| RoleTableEdits.RefreshThenSaveKeepsTheBatchIff | gui/role_table_model.py:270-427 | a refreshed and overlaid table survives saving and restoring iff nothing resurfaces |
| RoleTableEdits.StaleKeyIsRefusedAfterRestoring | gui/role_table_model.py:209-220 | a row with a stale key can be recorded before and is refused after |
| RoleTableEdits.AppendRows | gui/role_table_model.py:231-241 | new refdes are appended once, known ones keep their row |
| RoleTableEdits.TakingIs | gui/role_table_model.py:192-228 | taking a selection makes one new row of each record, in order |
| RoleTableEdits.AppendingIs | gui/role_table_model.py:231-241 | appending keeps the rows and adds new ones for the refdes that have none, once |
| RoleTableEdits.AddingARefIs | gui/role_table_model.py:251-267 | a typed refdes gets a row iff it is not blank, has none, and is in the last read |
| RoleTableEdits.RefreshingIs | gui/role_table_model.py:209-285 | a refresh changes the board columns and the key only, and keeps a row whose part is gone |
| RoleTableEdits.TypingAndRemovingAre | gui/role_table_model.py:244-248 | typing changes one cell of one row; removing takes exactly the rows named |
| RoleTableEdits.RefreshBoardValues | gui/role_table_model.py:270-285 | the board columns are read again, a row off the board stays |
| CellIdentification.AnyPartIdentifiesTheInstance | gui/cell_identification.py:192-290 | two accepted selections (after the narrowing to the cell's clusters), each part of the instance they both name, give the same kind and members and for an ordinary cluster the same map, for any order of the members |
| CellIdentification.AcceptedIff | gui/cell_identification.py:165-275 | a selection is accepted iff it is not empty, every component has a role of the cell and each another one, all have one non-blank cluster and one sheet, and if a role of the cell occurs twice in that instance every role is selected |
| CellIdentification.RefusedBecause | gui/cell_identification.py:165-270 | each of the eight refusals has its own condition and is given iff none before it applies |
| CellIdentification.IdentifiedIs | gui/cell_identification.py:246-290 | cluster, sheet, kind, members and map of an accepted selection, each from the components themselves |
| CellIdentification.EveryPartIsAccepted | gui/cell_identification.py:135-172 | every non-empty part of an accepted selection of an ordinary cluster is accepted, with the same cluster, sheet, kind and members |
| CellIdentification.NarrowedIs | gui/cell_identification.py:174-190 | a selection over two clusters is narrowed to the components of the cell's families if there are any, and any other is left alone |
| CellIdentification.MembersBelong | gui/cell_identification.py:107-132 | a member is of the cluster's family, or untagged, and stands on the sheet, if there is one |
| CellIdentification.CountsAreOccurrences | gui/cell_identification.py:256-259 | the count of a role says whether one, or two, members play it |
| CellIdentification.OrdinaryMapIsTheInstance | gui/cell_identification.py:277-290 | for an ordinary cluster the map is the instance's own, whatever was clicked |
| CellIdentification.FirstRefsIsTheInstance | gui/cell_identification.py:277-290 | with one member per role the map has exactly the roles that occur, each with its member's ref |
| CellIdentification.SpokeMapPairsRolesWithTheSelection | gui/cell_identification.py:261-275 | a spoke's map pairs the cell's roles one to one with the selected components |
| CellIdentification.LengthTestNeverFiresAlone | gui/cell_identification.py:261-270 | after the earlier refusals no role missing already means as many components as roles |
| CellIdentification.MembersArePermuted | gui/cell_identification.py:254-255 | the filter of the members does not depend on their order |
| CellIdentification.CountIsPermuted | gui/cell_identification.py:256-259 | how often a role occurs among the members does not depend on their order |
| CellIdentification.PermutedInstancesHaveOneMap | gui/cell_identification.py:277-290 | the map of an ordinary cluster does not depend on the order of its members |
| CellIdentification.IdentifyCellInstance | gui/cell_identification.py:135-290 | succeeds iff the clicked parts pin one instance down, each condition named; the refusals in the order asked, then the spoke or the filled map |
| CellIdentification.RefsInCluster | gui/cell_identification.py:282-285 | the first member of each role of the cell |
| CellIdentification.FillRoles | gui/cell_identification.py:286-288 | clicked refs are kept, the others filled in from the instance |
| CellIdentification.ClickedRefs | gui/cell_identification.py:281-281 | role to ref of the selected components |
| SlotExceptionHook.LinesPerIdentity | gui/slot_exception_hook.py:278-319 | in any sequence of failures an identity seen n times has one critical line and min(6, floor(log10 n)) repeat lines |
| SlotExceptionHook.OneReportPerIdentity | gui/slot_exception_hook.py:278-319 | report attempts equal the number of distinct identities |
| SlotExceptionHook.TheInterpretersAreHandedOn | gui/slot_exception_hook.py:261-290 | as many failures are handed on as are the interpreter's own |
| SlotExceptionHook.OneFailureDoes | gui/slot_exception_hook.py:278-319 | what one failure counts, reports and logs, by the number of its occurrences |
| SlotExceptionHook.OneIdentityIsOneFailure | gui/slot_exception_hook.py:149-209 | failures count as one iff they have one stack and one type; then both addresses shown are the same |
| SlotExceptionHook.SiteIsInjective | gui/slot_exception_hook.py:149-163 | an address tells file and line apart, colons in the path included |
| SlotExceptionHook.ExceptHook.Handle | gui/slot_exception_hook.py:278-319 | counts, reports and logs one failure; the interpreter's own exceptions are only handed on |
| SlotExceptionHook.ReportName | gui/slot_exception_hook.py:229-234 | the loop ends on the first name no file has, and every name before it is a file |
| SlotExceptionHook.LaterNameIsUntried | gui/slot_exception_hook.py:229-234 | no name is tried twice |
| SlotExceptionHook.EntrySite | gui/slot_exception_hook.py:166-183 | the first frame outside the worker wrapper, else the first one |
| SlotExceptionHook.EntryIs | gui/slot_exception_hook.py:140-195 | the two addresses shown: the first frame outside gui/worker.py, or the outermost, and the last frame |
| SlotExceptionHook.WrapperIs | gui/slot_exception_hook.py:140-146 | a frame is the wrapper's iff its path is gui/worker.py or ends in /gui/worker.py |
| SlotExceptionHook.FailingSite | gui/slot_exception_hook.py:186-195 | the last frame of the traceback, or a placeholder for none |
| SlotExceptionHook.StackSites | gui/slot_exception_hook.py:149-163 | the addresses of all frames in order |
| SlotExceptionHook.InstallUninstallRestores | gui/slot_exception_hook.py:322-355 | installing twice is installing once; uninstalling restores what was there and leaves a later hook alone |
| SlotExceptionHook.NeverWrapsItself | gui/slot_exception_hook.py:322-355 | over every run in which nobody else puts our hook in place it is never its own previous hook |
| SlotExceptionHook.WrapsItselfIff | gui/slot_exception_hook.py:322-355 | over every run the hook comes to be its own previous hook iff an install that is not switched off finds it in place uninstalled |
| SlotExceptionHook.PuttingOursBackWrapsIt | gui/slot_exception_hook.py:322-355 | a run that brings that about |
| BoardLayers.CopperOrderIsTheStackup | gui/board_layers.py:116-137 | every copper layer as often as the board has it and nothing else, from the front through the inner ones to the back |
| BoardLayers.ConfirmKeepsTheUsersWord | gui/board_layers.py:200-358 | a layer is remembered after a stored OK iff it is on the board and, if touched, checked, else remembered before or the memory could not be read; an OK that is not stored changes nothing |
| BoardLayers.UntouchedLayerChangesIff | gui/board_layers.py:200-358 | an OK changes the memory of a layer the user left alone iff it is stored and the board lacks the remembered layer, or the memory said no and could not be read |
| BoardLayers.MemoryIsTheLastWord | gui/board_layers.py:200-358 | over any sequence of dialogs on any boards, with reads and writes failing and the file getting lost, the memory of a layer is the last word on it: the user's last stored toggle, or the memory there was, or no from a board without the layer, or yes from a dialog that could not read the memory; what was empty never matters |
| BoardLayers.AnotherBoardForgetsTheLayer | gui/board_layers.py:344-358 | an untouched dialog on a board without a remembered layer forgets it |
| BoardLayers.AnUnreadMemoryErasesTheNo | gui/board_layers.py:200-358 | an untouched dialog that could not read the memory erases the user's no |
| BoardLayers.ConfirmingInTheFile | gui/board_layers.py:200-218 | confirming does to the memory in the state file what the run result says of it, whatever the read inside the write does |
| BoardLayers.OtherSetsAndTheMemory | gui/settings.py:83-86 | a set of another key keeps the memory, or loses it iff its own read fails and its write goes through |
| BoardLayers.OpenDialog | gui/board_layers.py:236-259 | the opening boxes: remembered and not empty, the rest flagged |
| BoardLayers.FilterTracks | gui/board_layers.py:361-381 | exactly the tracks on an allowed layer; shorter iff one was not allowed |
| BoardLayers.ReportSplitsTheLayersSeen | gui/board_layers.py:312-341 | read and skipped split the layers seen by the chosen set; none of them is called empty |
| BoardLayers.ReportNamesAre | gui/board_layers.py:312-341 | which layers the report calls read, skipped and empty, by the tracks |
| BoardLayers.TheseAreCopper | gui/board_layers.py:116-137 | the copper layers are 3 to 34; the memory has its key |
| ReadOutcome.ReasonsAddUp | gui/read_outcome.py:62-132 | the reasons sum to the larger of known and skipped, and none is given for nothing |
| ReadOutcome.EachReasonHasItsCount | gui/read_outcome.py:62-132 | how many items each of the five reasons is given |
| ReadOutcome.ReasonsComeInOrder | gui/read_outcome.py:62-84 | the reasons come in a fixed order, each at most once |
| ReadOutcome.WithoutPreludeOneReason | gui/read_outcome.py:87-132 | without a prelude read and skipped add up to selected and one reason has the whole count: "layer off" whenever a named layer was dropped |
| ReadOutcome.DroppedCopperIsReported | gui/board_layers.py:312-381 | a dropped copper track always names a layer in the report |
| ReadOutcome.OutcomeOf | gui/read_outcome.py:87-132 | the counts and the reasons of one read, all zero for an empty selection; the items go on as footprints, vias and tracks in the plan's order |
| ReadOutcome.SkipParts | gui/read_outcome.py:62-84 | the known reasons in order, then the unexplained rest |
| ExplodeGuard.LockIsTheLastWord | gui/explode_guard.py:94-142 | over every run the lock is up iff the last word about the journal named one; an unknown answer changes nothing |
| ExplodeGuard.SignalsAreTheFlips | gui/explode_guard.py:111-120 | the signals alternate from "exploded" on, one per flip |
| ExplodeGuard.ThePageIsPinned | gui/explode_wiring.py:156-192 | while the lock is up the view is on the entity page, whatever the user turns to |
| ExplodeGuard.ThePageIs | gui/explode_wiring.py:156-193 | which page is shown after each word, and when a signal comes |
| ExplodeGuard.GateIsTheYoungestGuards | gui/explode_guard.py:57-66 | of several guards the youngest one's gate is in force until that very guard is detached |
| ExplodeGuard.Guard.SetFromJournal | gui/explode_guard.py:111-120 | an empty journal is none; a signal only on a flip |
| ExplodeGuard.Guard.TakeJournal | gui/explode_guard.py:137-142 | returns the journal and clears the lock |
| ExplodeGuard.Guard.ApplyUnknown | gui/explode_guard.py:101-109 | leaves everything as it is |
| ExplodeGuard.Guard.PinRightPage | gui/explode_wiring.py:182-193 | pinned iff exploded and off the entity page |
| ExitProtocol.EveryWayIsProperIff | gui/exit_guard.py:49-123 | over every run each way out asks about unsaved changes once and first, quits only after a pass and with the clusters inactive or put back, iff no close was re-entered under the tray |
| ExitProtocol.NextExitAsksNothingIff | gui/exit_guard.py:85-97 | a program still running leaves at the next Quit without a question iff that happened; every other run asks afresh |
| ExitProtocol.OnlyAPassedWayQuits | gui/explode_wiring.py:219-243 | a good run ends only by a passed question with the lock down or a waited-for restore that succeeded; Cancel and a failed restore keep it running |
| ExitProtocol.PutBackAndQuitEndsTheProgram | gui/explode_wiring.py:219-243 | over any good run: "Put back and quit" on a connected board, from File > Quit or a close with the tray off, and the success of that restore end the program with the clusters back |
| ExitProtocol.PuttingBackStartsTheRestore | gui/explode_wiring.py:238-243 | such an answer puts in flight one restore, which that very way waits for |
| ExitProtocol.TheRestoreEndsTheProgram | gui/explode_wiring.py:238-243 | whatever happens meanwhile, the success of a waited-for restore ends the program, unless the way is a close and the tray is on by then |
| ExitProtocol.LeavingEndsOrStartsTheRestore | gui/exit_guard.py:85-114 | where one way out ends for every answer: stays, starts the restore, or quits |
| ExitProtocol.WhatAnEventLeaves | gui/explode_wiring.py:219-243 | the lock, the tray and the restores in flight after each event |
| ExitProtocol.WhatAnEventLeavesAlone | gui/explode_wiring.py:219-243 | the events that tell no story and end nothing |
| ExitProtocol.QuitWhileExplodedIsReachable | gui/explode_wiring.py:219-243 | with the tray toggled meanwhile, a run that quits with the clusters exploded and no question |
| ExitProtocol.StepKeepsInv | gui/explode_wiring.py:219-243 | one event keeps every story proper and every waiting way at its two answered questions |
| ExitProtocol.ReturningKeepsInv | gui/explode_wiring.py:238-243 | a waited-for restore ends its way in exactly one quit |
| ExitProtocol.BadRunBreaks | gui/exit_guard.py:85-97 | a re-entry under the tray leaves a way that was put back and hidden, and the flag up for good |
| ExitProtocol.Window.PressClose | gui/main_window.py:682-707 | hides under the tray, else the two questions and the quit |
| ExitProtocol.Window.PressQuit | gui/exit_guard.py:100-114 | the two questions whatever the tray, then the restore or the quit, by the answers |
| ExitProtocol.Window.RestoreSucceeded | gui/docks/explode_page.py:478-487 | clears the lock, raises the flag and goes on with the way that waited |
| ExitProtocol.Window.ConfirmUnsaved | gui/exit_guard.py:85-97 | asks unless the flag is up |
| ExitProtocol.Window.ReturnClustersBeforeQuit | gui/explode_wiring.py:224-243 | goes on iff nothing is exploded or the flag is up; otherwise asks, and starts the restore iff the answer is yes and the board is connected, whichever way is going out |

## Left out

- Qt widgets, menus, dialogs, the tray and the translation and wording of messages: no state of their own beyond what is above.
- The IPC with KiCad: the board is a map of shapes, a list of footprints, and answers given as parameters.
- Floating point: millimetres and seconds are reals and nanometres integers, so rounding of sums and comparisons is not modelled; truncation toward zero is.
- Wall-clock time: a timeout is a step the caller may take, not a number of milliseconds.
- `json.dump` and `json.load`: assumed only to be inverse; a file that does not decode as UTF-8, or a value that cannot be dumped, is not modelled.
- `str()` of a value that is not a string: an arbitrary non-empty text.
- `close()` and `check_write_crash_risk()` raising, and the logging of repeated connect failures. A profile path that is the empty string counts as a path.
- The marker radius and the layer name, each a setting that a draw reads when it needs it: one value per operation, though the radius is read once for the tolerance and again for the circle.
- A board that raises while a draw looks its layer up: the exception goes to the caller before anything is read or changed.
- `OverlayOwner.OverlayMarkerOwner.Valid`: a state file whose top level is no dictionary, on which every read of the map gives nothing and no store succeeds.
- Several writes of the state file at once on Windows, where an open file cannot be replaced, and overlapping writes of which one dies half-way.
- `SlotExceptionHook.IsWrapper`: paths of frames have forward slashes; the normalisation of others is not modelled.
- `OverlayMarkerOwner.read_position` and the small accessors (`has_key`, `uuid_for`, `keys`), and the keys of the duplicates and check panels: single reads.
- The order and the de-duplication of uuid lists handed to a deletion: the lists are compared as sets.
- Two threads inside one overlay operation: each operation is atomic with respect to the others and to the user's edits.
- Symbol sheets and the flags "the footprint has a Role or Cluster field": they gate only the explicit board write (`build_tag_updates`), which is left out together with the table's warnings and the group fill.
- `CellIdentification.Identify`: the cluster-prefix rule and the grouping of a selection by sheet are parameters, since their files are not part of this model; the message of each refusal is its kind only, and the list of repeated roles shown with a spoke is not returned.
- `enabled_copper_layers`, `hidden_copper_layer_names`, `cell_copper_layer_names`: readings of one adapter answer.
- `replace_selection`: writes the computed items to the board's selection and nothing else.
- The text of a failure report, and failures inside the excepthook itself (`_fallback`): the report directory is a finite set of names.
- Counting under a lock in the excepthook: one call at a time.
- The plain test window without a metadata dock, which is never asked about unsaved changes, and the accepting of half-typed forms before the question.
- The transfer of copper on a re-read (`transfer_enabled`, `resolve_transfer_context`): its rule is in a file that is not part of this model.
- `OverlayOwner.OverlayMarkerOwner.ForgetAll`: the returned uuids are stated as a set, not as the list in map order.
