# OpenLimiter, verified

A Dafny model of the parts of OpenLimiter where order, concurrency and failure meet, and proofs of what they
promise. `dafny verify dfyconfig.toml` checks all of it.

## What is modelled

**The provider order.** One record on disk (`OrderRecord`), written only from the revision it stands at. Every surface
holds a copy (`OrderStores`: the store's variables, as functions of one uninterrupted stretch each and as the class that
runs them). `OrderProtocol` puts any number of surfaces against the disk: a step is one stretch between two `await`s, a
write or a read reaching the disk, an answer or an event coming back, in any interleaving, with first reads, writes,
answers and rereads that fail or come late. `OrderSafety` proves what each step keeps, `OrderRuns` what holds over every
run: the record only ever gains providers, no accepted write overwrites a record it was not computed from.
`OrderConvergence` proves when surfaces come to show the record on disk, `OrderCalls` that what lands is what a call asked
for and that every call ends, `OrderBounds` that copies go forward, that every change is redrawn and when newcomers are
appended, `OrderFailures` the runs in which a promise is not kept.

**The list.** `ProviderList` is the algebra of a move (what is drawn from a record, and the record a move makes),
`Arrange` the in place reordering of the mount's children, `DragPreview` the arithmetic of a drag, and `ReorderList` with
`ReorderController` the press, drag, menu and redraw machine with its chain of saved moves. `ListInvariants` proves what
each event of a list keeps and `ListRuns` what holds over its runs: an interaction freezes the blocks, nothing stays held
back, every write starts from a revision that was drawn or landed. `ListDrawings` follows what a list claims back to the
order it was drawn in. `OrderLists` puts a list over its surface in the protocol: each call a move makes is a step the
protocol allows, each step of the protocol is for the list its store moving on, and a move lands as what its own save was
answered with.

**Around it.** `SessionMove` and `SessionMover`: carrying a session between two browser stores whose every call may
throw. `PanelReader`: the edge panel's single flight reader. `DetectionLoader` and `DeviceSignIn`: the first run's scan
queue and its bounded sign in loop. `TrayRows`: the tray's grouped sort against its headline. `Changelog`: the line
reader, inverse to writing the page. `Negotiation`: Accept-Language, section 12.5.4 of RFC 9110 with the quality values
of section 12.4.2. `StableSort` stands for `Array.prototype.sort`, `Sequences` and `Options` are shared.

Code that changes variables step by step is a class or a loop proved against a function of the old state; the
properties are lemmas about those functions.

## Assumptions

- The record on disk changes only through its own write command; a read of it gives a list the command would accept, and
  at revision 0 the empty usage record (`provider_order.rs` 112-129).
- Each surface is told of every write made since it opened, in any order and at any delay.
- A model names each provider once, as the maps it is built from do.
- Blocks have positive heights and one uniform gap, and positions are exact numbers.
- The sign in's clock does not run back and a wait lasts at least as long as it was asked to.

## Where the code and its own account differ

- `account-client.ts` 184-187 says the worst case of a refused move is never a session in neither store.
  `SessionMove.RefusedCanLoseAKey` is a run that ends so: the source gives up a key, refuses to give up another, and
  refuses to take the first one back. `SurvivesExactlyWhen` says of each key, for every script of failures and whatever the
  target held, when it survives; `RefusedIsUndone` when each store ends as it was found; `OutcomeIs` when a move is refused.
- `locales.ts` 84-85 promises one of the published languages or nothing. A header that names `constructor` or
  `__proto__` is answered with what every plain object holds under that name (`AnswersConstructor`);
  `PublishedUnlessInherited` says exactly when.
- `reorder.js` 116-120 sets whatever the first load read, without comparing revisions. Answered after an event it takes
  the copy back, the only step that can (`GoesBackExactlyWhenLate`), and a move can then drop a provider
  (`LateLoadLosesProvider`). `LoadIsSafeExactlyWhen` gives the condition for the record: no run loses a provider exactly
  when, while a list may write from the disk's revision, the answer names all the disk does. `LoadInOrder` gives it for
  writes computed from old copies, in terms of what the surface may write from and has under way, `LateLoadLeavesBehind`
  for showing the newest record, and `LateLoadShowsOld` is a run that ends with the empty record shown over a newer one.
- `reorder.js` 122-126 puts back the copy a save was made on, which may be another save's tentative record. Two calls that
  overlap and both fail to write and to reread leave a record the disk never held (`TentativeOutlivesOverlap`);
  `RealExactlyWhenSound` gives the condition over a whole run, and one call at a time per surface is enough
  (`OneAtATimeIsSound`).
- `reorder.js` 116-120 leaves the empty record when the first read fails. Such a surface shows it, whatever is on disk
  (`FailedFirstReadShowsNothing`), until an event, a write's answer or a reload brings a record: `OneAtATimeConverges` says
  exactly that.

## Model

| member | source | states |
|---|---|---|
| OrderRuns.ProvidersOnlyGrow | apps/desktop/ui/reorder.js:84-194 | Over every run of any surfaces whose first reads are safe, failed and late ones included, the disk's record keeps every provider it ever named, stays without duplicates, and gains one revision per accepted write |
| OrderRuns.LoadIsSafeExactlyWhen | apps/desktop/ui/reorder.js:116-120 | Below the largest revision, no later run loses a provider exactly when the first read's answer names all the disk does, or no list of its surface may write from the disk's revision |
| OrderRuns.NoBlindOverwrite | apps/desktop/ui/reorder.js:133-154 | A write the disk accepts was computed from a copy at exactly the disk's revision, and from that very record when the copy was one of the disk's |
| OrderRuns.OneWinner | apps/desktop/src-tauri/src/provider_order.rs:134-163 | In any run exactly one write is accepted from each revision the disk leaves |
| OrderRuns.NoDuplicateIsEverSent | apps/desktop/src-tauri/src/provider_order.rs:83-93 | No surface in any reachable state sends a list refused for a duplicate; only its length or a code's spelling can be |
| OrderRecord.TakesExactlyWhen | apps/desktop/src-tauri/src/provider_order.rs:83-163 | What the disk takes, letter by letter and in the order it refuses, and what it then holds |
| OrderConvergence.OneAtATimeConverges | apps/desktop/ui/reorder.js:111-161 | With one call at a time on it and its own first read in time, whatever fails and whatever other surfaces do, a surface with none under way shows a record of the disk, or the empty one before any has come to it; its events delivered, it shows the newest exactly when any record has come to it or the disk is still empty |
| OrderConvergence.Convergence | apps/desktop/ui/reorder.js:111-161 | The same for overlapping calls on it, in every run whose failed rereads of that surface are sound |
| OrderConvergence.LateLoadLeavesBehind | apps/desktop/ui/reorder.js:116-120 | A first read answered late leaves a surface behind the disk, with nothing left to correct it, exactly when the newest record is no longer to be heard |
| OrderConvergence.RealExactlyWhenSound | apps/desktop/ui/reorder.js:122-154 | Throughout a run a surface shows a record of the disk or of a save still under way, exactly when none of its failed rereads puts back a record another call made that never landed |
| OrderConvergence.OneAtATimeIsSound | apps/desktop/ui/reorder.js:122-154 | One call at a time on a surface, reload included, makes each of its rereads sound |
| OrderConvergence.AcceptedReplacesWhatItSaw | apps/desktop/ui/reorder.js:133-154 | With one call at a time on a surface and its own first read in time, in every run, an accepted write of it was computed from the very record it replaces |
| OrderCalls.LandedIsAsked | apps/desktop/ui/reorder.js:133-194 | In every run each record the disk takes is what some call asked for over the copy it was made on: a move the list with its block moved and the order made custom, a switch the other mode alone, an append the newcomers behind a custom list |
| OrderCalls.OnlyASwitchMakesItUsage | apps/desktop/ui/reorder.js:170-194 | In every run a record that lands is most used first exactly when a switch to that wrote it; moves and appends leave or make the order a person's own |
| OrderCalls.LandedChangesTheDisk | apps/desktop/ui/reorder.js:170-194 | With one call at a time on a surface and its own first read in time, what it lands differs from the record it replaces by what was asked and nothing else, so switching back brings the list back |
| OrderCalls.EveryCallEnds | apps/desktop/ui/reorder.js:133-179 | From every state a call under way can be ended, by at most five steps of its own |
| OrderSafety.StepKeepsSafe | apps/desktop/ui/reorder.js:101-200 | Every step but an unsafe first read keeps: each copy at revision r names all providers of the record at r, and each write the disk would accept names all it does |
| OrderSafety.StepKeepsInv | apps/desktop/ui/reorder.js:101-200 | With a surface's own first read in time and the others' safe, every step also keeps its revisions in order: none of its lists' bases and no call under way is ahead of its copy, no write ahead of the copy it was made on |
| OrderSafety.LoadInOrder | apps/desktop/ui/reorder.js:116-120 | A first read's answer keeps its surface's order exactly when nothing the surface may write from or has under way is ahead of it |
| OrderSafety.BegunSafe | apps/desktop/ui/reorder.js:133-139 | Beginning any save keeps a surface safe, shown at once or not |
| OrderSafety.AnsweredSafe | apps/desktop/ui/reorder.js:142-149 | So does a write's answer, landed or not |
| OrderSafety.ReloadedSafe | apps/desktop/ui/reorder.js:122-153 | So do a reload, read or failed, and the end of its save |
| OrderSafety.AppendedCovers | apps/desktop/ui/reorder.js:188-194 | A newcomer append writes a person's own order, from the copy's revision: the list in front, and the unnamed shown codes, each once |
| OrderStores.OrderStore.SaveBegun | apps/desktop/ui/reorder.js:133-136 | A save counts itself, keeps the copy it was made on, shows at once when made on the copy's revision, and changes the generation if it does |
| OrderStores.OrderStore.WriteAnswered | apps/desktop/ui/reorder.js:137-148 | A landed write is reported with its revision, which the copy has then reached; the copy never goes back |
| OrderStores.OrderStore.LoadAnswered | apps/desktop/ui/reorder.js:116-120 | A first read shows whatever valid record it read, an older one too |
| OrderStores.OrderStore.EventHeard | apps/desktop/ui/reorder.js:157-160 | An event shows a newer record and no other |
| OrderStores.OrderStore.ReadFromDisk | apps/desktop/ui/reorder.js:122-126 | A reload takes the disk's record unless the copy is past it, or failing that takes the save back |
| OrderStores.OrderStore.SaveEnded | apps/desktop/ui/reorder.js:149-153 | A save failed when the copy still holds the revision it was written from, else another surface was first; only a failed append counts |
| OrderStores.OrderStore.Adopt | apps/desktop/ui/reorder.js:188-194 | An append begins exactly when the order is custom, nothing is being written, fewer than three appends failed and a shown code is unnamed; it writes a custom order at that revision: the list, then the unnamed shown codes in their order |
| OrderBounds.GoesBackExactlyWhenLate | apps/desktop/ui/reorder.js:111-179 | Of all steps only the surface's own first read, answered after something newer, lowers a copy's revision, and such a read always does |
| OrderBounds.CopiesNeverGoBack | apps/desktop/ui/reorder.js:111-179 | Over every run with its own first read in time a surface's copy never falls and no revision its lists may write from is ahead of it |
| OrderBounds.ChangesAreRedrawn | apps/desktop/ui/reorder.js:97-115 | Over every run a surface that shows another record has another generation too, or a reload whose redraw is still to come |
| OrderBounds.AppendsAreBounded | apps/desktop/ui/reorder.js:133-194 | For newcomers in a set, whatever else the surface saves meanwhile, it begins at most three appends, one more for each code of the set the disk does not name, one for each record past its copy that anything else wrote, and those that draws begin inside another append's reload |
| OrderBounds.AppendsUntilThreeFailed | apps/desktop/ui/reorder.js:149-194 | In every run of an opened surface an append may begin exactly when the order is custom, nothing is being written, something new is shown and fewer than three appends failed with no other surface first |
| OrderBounds.NamedIsNeverAppended | apps/desktop/ui/reorder.js:188-194 | Once a record names the shown codes, no copy that has reached it appends them again in any run |
| OrderFailures.LateLoadLosesProvider | apps/desktop/ui/reorder.js:116-120 | A run from an empty disk in which a first read answered after an event takes the copy back, and a move on the drawn list is then accepted though it drops a provider |
| OrderFailures.LateLoadShowsOld | apps/desktop/ui/reorder.js:116-120 | A run in which a first read answered late leaves a surface showing the empty record over a newer one, with nothing under way and nothing to be heard |
| OrderFailures.FailedFirstReadShowsNothing | apps/desktop/ui/reorder.js:116-120 | A run in which a failed first read leaves a surface showing the empty record while the disk names a provider, with nothing under way and nothing to be heard |
| OrderFailures.TentativeOutlivesOverlap | apps/desktop/ui/reorder.js:122-154 | A run in which two overlapping calls that both fail leave a record the disk never held, with nothing left to correct it |
| OrderLists.ListsRunOnTheProtocol | apps/desktop/ui/reorder.js:254-353 | In every run of a list from the moment its surface opens, among any other surfaces, what the list may write from is what its surface may, each call a move makes is a step of the protocol, and what that very call came to is an answer the move can take |
| OrderLists.AcceptedMoveReplacesWhatItNamed | apps/desktop/ui/reorder.js:320-353 | From list to disk, in every run: an accepted write of a list's move writes the shown list with its block moved, over a copy at the disk's revision, and replaces the revision the move named: one the list was drawn from or landed as, or the very record the save of the move before it was answered with |
| OrderLists.StepIsHeard | apps/desktop/ui/reorder.js:101-200 | Every step of the protocol is for the list its store moving on: never back, and a new record with a new generation unless its redraw is still to come |
| ProviderList.ByOrderMeaning | apps/desktop/ui/reorder.js:45-55 | A person's own order is the listed codes in the list's order, then the rest in the model's; most used first is the model |
| ProviderList.MoveThenDraw | apps/desktop/ui/reorder.js:50-89 | The record a move makes, drawn over the shown blocks in any order, is the shown list with the block moved, and hidden entries keep their indices |
| ProviderList.MovedPlaces | apps/desktop/ui/reorder.js:84-86 | The moved block stands at the clamped position and the others keep their order |
| ProviderList.MovedOrderElements | apps/desktop/ui/reorder.js:84-89 | The new list names exactly the stored and the shown codes, each once |
| ProviderList.MoveAndMoveBack | apps/desktop/ui/reorder.js:84-89 | Moving a block and moving it back restores the whole stored list, hidden entries included |
| ProviderList.AppendMovesNothing | apps/desktop/ui/reorder.js:184-193 | Naming the newcomers at the end of the list leaves what is drawn as it is drawn |
| ProviderList.ComputeMovedOrder | apps/desktop/ui/reorder.js:84-89 | The loop that consumes a local array computes that list and never finds the array empty |
| Arrange.Mount.Arrange | apps/desktop/ui/reorder.js:63-77 | The mount's blocks end exactly in the requested order, its other children keep theirs, the first held block on screen is never taken out, and a mount already in order is left alone |
| Arrange.Mount.DropStale | apps/desktop/ui/reorder.js:64-66 | Exactly the blocks no longer shown are removed |
| Arrange.Mount.AppendAll | apps/desktop/ui/reorder.js:70-73 | With nothing held the blocks are appended in order, everything else in front |
| Arrange.Mount.MoveAround | apps/desktop/ui/reorder.js:74-76 | With a block held every other block moves around it and it is not detached |
| DragPreview.PreviewIsDrop | apps/desktop/ui/reorder.js:496-503 | Slid aside offsets and the slot's place are the tops that laying out the moved list gives |
| DragPreview.TargetIsAfterThosePassed | apps/desktop/ui/reorder.js:489-492 | The drop place is after exactly the blocks whose middle the dragged one's has passed |
| DragPreview.TravelStaysInside | apps/desktop/ui/reorder.js:480-490 | The block follows the pointer while its middle stays inside the list, and otherwise stands with its middle at the end the pointer passed |
| DragPreview.TargetFollowsPointer | apps/desktop/ui/reorder.js:489-492 | Moving the pointer down never moves the drop up |
| DragPreview.EveryPlaceIsReached | apps/desktop/ui/reorder.js:480-492 | Every place is reached with the block's middle kept inside the list |
| DragPreview.DropIsMove | apps/desktop/ui/reorder.js:530-532 | The drop's splice is the move the store is asked for |
| DragPreview.Drag.Follow | apps/desktop/ui/reorder.js:483-504 | After every pointer move the block travels with the pointer, its middle kept between the list's top and bottom, the target is after exactly the blocks whose middle it passed, and the transforms and the slot are those of that place |
| DragPreview.Drag.ShowsTheDrop | apps/desktop/ui/reorder.js:483-504 | Whatever the pointer did, the blocks and the slot are drawn where laying out the moved list puts them |
| DragPreview.Drag.SlideAside | apps/desktop/ui/reorder.js:496-503 | The loop slides each block by its offset and puts the slot at its landing |
| ListInvariants.RedrawHolds | apps/desktop/ui/reorder.js:254-272 | A redraw during a press, drag or menu changes nothing but what is held back, unless its block is gone; then the interaction ends and what arrived shows |
| ListInvariants.StepScreen | apps/desktop/ui/reorder.js:254-545 | Every handler keeps the blocks without duplicates, equal to what is drawn, and the drag's list over the same codes |
| ListInvariants.StepChain | apps/desktop/ui/reorder.js:320-353 | Every handler keeps the moves a chain: each waits for the one before, or all before it are over |
| ListInvariants.MovesNameTheClaim | apps/desktop/ui/reorder.js:320-340 | A move is begun exactly by a drop away from the block's own place or a choice of another place in the menu, one at a time, never from ROLLBACK, from what the list claimed before what arrived was settled, and in the list as it was shown; a move begun stays what it was made as |
| ListInvariants.RollbackHolds | apps/desktop/ui/reorder.js:218-224 | While ROLLBACK stands nothing is unfinished and no event begins a move; only a model drawn at a known revision ends it |
| ListRuns.RedrawsHold | apps/desktop/ui/reorder.js:254-295 | No run of redraws, pointer moves, copy changes and answers to earlier moves moves a block or changes the list that is dragged while an interaction lasts |
| ListRuns.IdleHoldsNothingBack | apps/desktop/ui/reorder.js:289-295 | In every reachable idle state no model is held back and the blocks are those of the last model drawn, however interactions ended |
| ListRuns.EndShowsHeld | apps/desktop/ui/reorder.js:287-295 | When the last interaction ends, moving nothing, what was held back shows in the copy's order; the list then claims the revision it came at exactly when nothing was told since |
| ListRuns.QueuedMoveIsWrittenFromLanding | apps/desktop/ui/reorder.js:340-348 | In every run a move made while an earlier one had not landed is written only from the revision the move before it landed as |
| ListRuns.NothingWrittenBehindFailure | apps/desktop/ui/reorder.js:340-353 | In every run, when an earlier move does not land every move made behind it is over without a write |
| ListRuns.QueueGoesOn | apps/desktop/ui/reorder.js:340-353 | The first move that is not over has its base known, or was called and waits for its answer alone |
| ListRuns.RollbackWritesNothing | apps/desktop/ui/reorder.js:320-336 | While ROLLBACK stands no run of events begins a move |
| ListRuns.MovesAreWrittenFromBases | apps/desktop/ui/reorder.js:279-353 | Every revision a move is written from was drawn or landed earlier, and the copy has reached it |
| ListDrawings.StampedShowIsCurrent | apps/desktop/ui/reorder.js:274-295 | In every run a list whose claim rests on a drawing shows exactly the order that was drawn and never claims a revision newer than it; drawn at a known revision, it claims that one |
| ListRuns.WhatTheListClaimsAfter | apps/desktop/ui/reorder.js:327-335 | After a save a list redrawn meanwhile claims the revision it was drawn from, one not redrawn the landing, or ROLLBACK when there was none |
| ListRuns.DropNamesDrawnRevision | apps/desktop/ui/reorder.js:254-545 | However many orders were heard, redraws held and earlier moves answered during a press and a drag, a drop away from the block's own place begins one move of it in the list drawn before them, naming the revision that was drawn from; at its own place none |
| ListRuns.MoveShowsWhatItSaves | apps/desktop/ui/reorder.js:320-336 | A move shows at once, and the record it makes of any stored list is drawn as the blocks it shows |
| ListRuns.DropShows | apps/desktop/ui/reorder.js:525-545 | Whatever was redrawn during the drag, a drop shows the moved list without the blocks that are gone, then those that came; or just what settled when a newer order has been heard of |
| ListRuns.DropsWhereFollowed | apps/desktop/ui/reorder.js:525-541 | A drop moves the block to the place the pointer was last followed to, and nowhere from its own |
| ListRuns.ChoiceShows | apps/desktop/ui/reorder.js:421-435 | A menu choice of another place begins one move there, shown as a drop is; any other begins none, and the menu closes |
| ListRuns.DropShowsWhatItSaves | apps/desktop/ui/reorder.js:525-545 | The record a drop makes is drawn as the blocks it shows when the stored list names none that came during the drag; when none came or went its block stands where it was held |
| ReorderController.Controller.Draw | apps/desktop/ui/reorder.js:254-272 | A redraw under an interaction leaves the blocks and what the next move names alone, an idle one shows the copy's order, and none begins a move |
| ReorderController.Controller.BaseResolved | apps/desktop/ui/reorder.js:340-342 | What a queued move writes from was drawn or landed and the store has reached it; with nothing to write from the move before it did not land |
| ReorderController.Controller.PlaceFor | apps/desktop/ui/reorder.js:426-427 | The four items lead one place up, one down, to the top and to the bottom |
| ReorderController.Controller.Choose | apps/desktop/ui/reorder.js:421-435 | The menu closes and begins exactly one move when the place is another of the list, of its block, in the list as it was shown and from what it claimed then |
| ReorderController.Controller.Finish | apps/desktop/ui/reorder.js:525-545 | A drop away from its own place begins exactly one move, in the list it was dragged in and from what was claimed before anything settled; any other drop and a cancel none |
| ReorderController.Controller.Begin | apps/desktop/ui/reorder.js:447-474 | A press becomes a drag over the blocks as they stand, of its own block if that is still there, and would drop where it stands |
| ReorderController.Controller.Cancel | apps/desktop/ui/reorder.js:635-639 | Whatever is under way ends, moving nothing, and what arrived meanwhile shows |
| SessionMove.DoneIsComplete | apps/web/lib/account-client.ts:189-251 | Done means the whole session is in the target unchanged and nowhere in the source with all else untouched, or nothing to move was found and nothing changed |
| SessionMove.OutcomeIs | apps/web/lib/account-client.ts:189-251 | For every script of failures: the move succeeds exactly when no read throws, every write keeps what it is given and reads back, and the source gives up every key; a source that cannot be walked has nothing to move |
| SessionMove.RefusedIsUndone | apps/web/lib/account-client.ts:207-248 | A refusal leaves each store exactly as found if and only if each call of its rollback works, throws over what is already right, or keeps what it was given; other keys are never touched |
| SessionMove.SurvivesExactlyWhen | apps/web/lib/account-client.ts:184-187 | After a refusal each session key is still in a store, whatever the target held, exactly when not everything had landed, or the two scripts' calls for that key leave it in the source or in the target |
| SessionMove.SourceUntouchedUntilLanded | apps/web/lib/account-client.ts:218-232 | A failure before everything has landed leaves the source whole; after it every key reads the same in the target |
| SessionMove.RefusedCanLoseAKey | apps/web/lib/account-client.ts:234-248 | A source that refuses in both directions leaves a session key in neither store |
| SessionMove.EnumerateFinds | apps/web/lib/account-client.ts:128-140 | Walking a store finds every key under the prefix, or none when one of its calls throws, and changes nothing |
| SessionMove.AbsentKeysArePassedOver | apps/web/lib/account-client.ts:219-224 | With no call throwing exactly the keys the source still holds are carried, in order and with their values |
| SessionMover.MoveAuthSession | apps/web/lib/account-client.ts:189-251 | The loops over two live stores end as the specification of the move says, for every script of failures |
| SessionMover.SessionKeysIn | apps/web/lib/account-client.ts:128-140 | The walk over a live store finds what the specification finds |
| PanelReader.PanelIsSingleFlight | apps/desktop/ui/edge-panel.js:132-190 | In every run at most one read is under way, the one timer is armed exactly while shown, idle and not gone, and whoever is answered by a read is answered by one that started later, with what that read came to |
| PanelReader.AskingReads | apps/desktop/ui/edge-panel.js:132-245 | A timer, a shown panel, a collector pass or an order written starts a read at once with no timer left, or has one more made after the read under way; hiding starts none |
| PanelReader.PollsOn | apps/desktop/ui/edge-panel.js:184-189 | While the panel is shown each landing arms the timer, and that timer starts the next read |
| PanelReader.RereadIsAnswered | apps/desktop/ui/edge-panel.js:191-196 | In every run, disposal included, a reread is answered once two reads have landed or none is under way, exactly when the panel was not disposed of while the reread still waited for a read to begin; then it never is |
| PanelReader.OneMoreRead | apps/desktop/ui/edge-panel.js:134-188 | Any number of requests during one read cause exactly one more |
| PanelReader.Reader.Landed | apps/desktop/ui/edge-panel.js:184-189 | The end of a read tells everyone it served what it came to, then reads again for those who asked meanwhile, or arms the one timer while shown |
| PanelReader.Reader.Reread | apps/desktop/ui/edge-panel.js:193-196 | A caller waits for a read that has still to start, one or two landings away, or is told at once that the panel is gone |
| PanelReader.Reader.TimerFired | apps/desktop/ui/edge-panel.js:184-189 | The timer starts a read for all who wait, and none stays armed |
| PanelReader.Reader.ShownHeard | apps/desktop/ui/edge-panel.js:223-229 | Shown, the panel reads now, or once more after the read under way; hidden, it starts none; neither leaves a timer |
| DetectionLoader.LoadsAreSerialAndLabelled | apps/desktop/ui/first-run.js:257-299 | In every run scans never overlap and are answered in the order they were asked for |
| DetectionLoader.ValueIsItsGenerations | apps/desktop/ui/first-run.js:263-267 | A value handed back at once is the newest generation's own scan |
| DetectionLoader.IdleCommitsNewest | apps/desktop/ui/first-run.js:283-297 | With none in flight the newest request's answer is committed |
| DetectionLoader.AsksExactlyWhen | apps/desktop/ui/first-run.js:263-299 | In every run a load asks for a scan exactly when it is forced or none was ever asked for; another shares the newest in flight, or is answered at once with what the newest read |
| DetectionLoader.ScansGoOn | apps/desktop/ui/first-run.js:269-298 | Up to any scan still open one is under way and may end, or is chained and may start |
| DetectionLoader.OlderAnswerCommitsNothing | apps/desktop/ui/first-run.js:244-285 | In every run, once a generation is asked for, what is committed stays what it was until a scan of that generation or a later one answers |
| DetectionLoader.Detections.Load | apps/desktop/ui/first-run.js:263-299 | A scan is asked for exactly when forced or when none ever was, behind all others; otherwise the scan in flight is shared or the newest scan's own value handed back |
| DetectionLoader.Detections.ScanAnswered | apps/desktop/ui/first-run.js:278-286 | An answer is labelled with its own generation and committed only when that is the newest |
| DetectionLoader.Detections.ScanSettled | apps/desktop/ui/first-run.js:290-297 | The reaction to the newest scan leaves none in flight, that to an older one changes nothing |
| DeviceSignIn.RunSignIn | apps/desktop/ui/first-run.js:423-485 | The loop leaves in the first round that is cancelled, late or answered with anything but pending; complete alone completes it, and each other way out has its outcome; at most 90 polls and fewer than the lifetime, `expiresInSeconds` capped at three minutes, allows; the backend is told once of a cancel, the deadline or a failed poll |
| DeviceSignIn.SomeRoundLeaves | apps/desktop/ui/first-run.js:444-463 | The round numbered by the lifetime in polls begins too late to go on |
| TrayRows.ComparatorIsConsistent | apps/desktop/ui/tray.js:290-306 | With accounts told apart the comparator is a consistent order |
| TrayRows.RowsAreGrouped | apps/desktop/ui/tray.js:283-307 | Live rows come first, the more pressed account before the less, each account's stand together, by cadence and then by meter |
| TrayRows.FirstAccountIsHeadline | apps/desktop/ui/tray.js:270-334 | Whenever a row is live the first account listed peaks at the headline's percentage |
| TrayRows.LeadRow | apps/desktop/ui/tray.js:318-334 | The headline is the most pressed live row, towards the shorter cadence, or the first row |
| TrayRows.BuildRows | apps/desktop/ui/tray.js:226-264 | A row keeps its snapshot's provider, account and meter; its percentage is the snapshot's brought between 0 and 100, none when unknown; only a fresh one is live |
| TrayRows.Popover | apps/desktop/ui/tray.js:249-334 | For rows built from readings, with accounts told apart: when any is fresh the list opens on a live row whose account peaks at the headline's percentage, the greatest fresh one |
| TrayRows.Peaks | apps/desktop/ui/tray.js:284-289 | The map's loop gives each account its highest live percentage |
| TrayRows.SortedCopy | apps/desktop/ui/tray.js:283-307 | Sorting with that map is sorting by the accounts' peaks |
| Changelog.ReadChangelog | apps/web/lib/changelog.ts:67-106 | The releases, put back into lines, are the lines that are not blank from the first release heading on, in order, each once |
| Changelog.SameSections | apps/web/lib/changelog.ts:67-106 | Those lines determine the releases, so there is one right reading |
| Changelog.Reading.CloseEntry | apps/web/lib/changelog.ts:71-74 | Closing an entry loses no line |
| Changelog.Reading.CloseRelease | apps/web/lib/changelog.ts:75-79 | Closing a release loses no line |
| Changelog.Reading.Take | apps/web/lib/changelog.ts:81-103 | Each line is added to what was read, or left out before the first release |
| Negotiation.NegotiationChoosesBest | apps/web/i18n/locales.ts:89-114 | A header is answered with what its earliest entry of the greatest positive quality maps to, among those that map to anything |
| Negotiation.TagIsAnsweredByItsBase | apps/web/i18n/locales.ts:73-111 | A header that is one tag is answered by its base language, whatever its case and its region: the five published ones, the two inherited names, and nothing else |
| Negotiation.WantedAs | apps/web/i18n/locales.ts:94-102 | A tag followed by a quality is wanted as much as that says, or wholly when it says no finite number |
| Negotiation.SplitIsCut | apps/web/i18n/locales.ts:92-95 | The parts joined again are the header, and none holds a separator |
| Negotiation.TrimCuts | apps/web/i18n/locales.ts:90-101 | Trimming takes the blanks at both ends and nothing else |
| Negotiation.QualityIsFirst | apps/web/i18n/locales.ts:96-100 | An entry's quality is the first finite one its parameters name |
| Negotiation.PlainTagIsWantedMost | apps/web/i18n/locales.ts:94-102 | A tag without parameters has quality 1 |
| Negotiation.PublishedUnlessInherited | apps/web/i18n/locales.ts:73-111 | The answer is not a published language exactly when the chosen entry names something every object has |
| Negotiation.AnswersConstructor | apps/web/i18n/locales.ts:108-110 | The header `constructor,de;q=0.5` is answered with neither that language nor nothing |
| StableSort.StableSortIsUnique | apps/desktop/ui/reorder.js:54 | A sorted list that keeps ties in order is the only one, so any stable sort gives it |
| StableSort.SortKeepsTies | apps/desktop/ui/reorder.js:54 | The sort never reorders entries its comparator ties |
| StableSort.SortSorts | apps/desktop/ui/tray.js:290-306 | Under a consistent comparator the sort is sorted |

## Left out

- OneAtATimeConverges: runs in which the surface's own first read is answered after something newer; what becomes of it is `LateLoadLeavesBehind`.
- Drawing, focus, announcements, pointer capture, edge scrolling, the settle animation and `hold`: blocks are codes in a sequence.
- `resume` in the list: it only asks the store for a newcomer append, which `Append` may do at any time.
- An event between a surface opening and its listener being attached: listening begins as it opens.
- The keyboard's way through the menu and Escape: they call `cancel`, `finish` and `closeMenu`.
- A record file that is damaged, replaced or deleted by something else, which reads as revision 0.
- `initFirstRun`'s `flow` and `draw`, the rows' copy, the countdown and the connect rows: no property beyond one branch each.
- What a panel read draws (`projectReadings`, `limitsModel`, `holdReadings`), the panel's height and its Refresh button.
- `normalizeDetections` and `claudeSignals`: a scan is the payload it read.
- `bandForPercent`, `paceTickPercent`, window labels and every sentence of the tray.
- The changelog's regular expression, its trimming and its file paths: a line comes classified.
- `parseFloat` is a parameter of the negotiation, and only ASCII letters and blanks are folded and trimmed.
- Key naming, the stored preference and the account client's refresh ticker in `account-client.ts`.
- Floating point rounding in the drag and in percentages.
