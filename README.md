# protegon core, modelled in Dafny

protegon is a C++ 2D game engine whose repository keeps several
generations of the engine side by side. This project models the discrete
bookkeeping at the engine's core and proves what that bookkeeping
promises. The core covers button state machines, the input state lattice
and the scene managers. It also covers the three tween engines, the
effect task queues and dialogue line selection. Further files model the
script action queue, the keyed resource managers and the renderer's
batching and GL state cache. The remaining files model the shader text
processing, a broadphase k-d tree, the grid logic of a dice game, polygon
index bookkeeping, movement flags, an integer noise hash and a packed
shader type code.

Each source file becomes one module. Code that updates objects in place
becomes a `class` whose methods have `modifies` clauses. Each such method
is proved against a specification function or an invariant. Pure code
becomes datatypes, functions and lemmas. Floats are `real`. An engine
assertion (`PTGN_ASSERT`) becomes a precondition. Clocks, window-system
queries and GL calls become parameters or are left out, as listed below.

## Model

| member | source | states |
|---|---|---|
| Input.GetMouseIndex | engine/src/core/input/input_handler.cpp:415-436 | every button has a slot below the slot count, and GetMouse maps the slot back to the button |
| Input.MouseIndexBijective | engine/src/core/input/input_handler.cpp:415-436 | GetMouseIndex(GetMouse(i)) == i for every slot, so slots and buttons correspond one to one |
| Input.PressedXorReleased | engine/src/core/input/input_handler.cpp:466-474 | every state counts as exactly one of pressed (Pressed or Down) and released (Released or Up) |
| Input.Settled | engine/src/core/input/input_handler.cpp:236-264 | the per-frame advance leaves no Up or Down state, keeps whether the key counts as pressed, and leaves Released and Pressed alone |
| Input.KeyDownState | engine/src/core/input/input_handler.cpp:98-115 | a non-repeat key-down gives Down, and a repeat leaves the state unchanged |
| Input.ReleaseState | engine/src/core/input/input_handler.cpp:80-97 | a release gives Up unless the state is already Released, so the result always counts as released |
| Input.MouseDownState | engine/src/core/input/input_handler.cpp:60-79 | a mouse-down gives Down unless the button is already Pressed, so the result always counts as pressed |
| Input.HeldTime | engine/src/core/input/input_handler.cpp:365-389 | held time is 0 with no timestamp or in a released state, and a positive held time is the time since the timestamp of a pressed key |
| Input.ProcessEvent | engine/src/core/input/input_handler.cpp:44-197 | one event rewrites only the slot it names (key-down, key-up, mouse-down, mouse-up), leaves the other table untouched, and emits at most one event |
| Input.ProcessEvents | engine/src/core/input/input_handler.cpp:44-197 | the polling loop applies the events in order and keeps the tables well formed |
| Input.HeldMouseEvents | engine/src/core/input/input_handler.cpp:199-211 | one held MouseDown is emitted per Pressed button, each naming a Pressed button, and none when no button is Pressed |
| Input.InputHandler.KeyPressed | engine/src/core/input/input_handler.cpp:466-469 | holds iff the key is Pressed or Down |
| Input.InputHandler.KeyReleased | engine/src/core/input/input_handler.cpp:471-474 | holds iff the key is Released or Up |
| Input.InputHandler.MousePressed | engine/src/core/input/input_handler.cpp:443-446 | holds iff the button's slot is Pressed or Down |
| Input.InputHandler.MouseReleased | engine/src/core/input/input_handler.cpp:448-451 | holds iff the button's slot is Released or Up |
| Input.InputHandler.KeyDown | engine/src/core/input/input_handler.cpp:476-478 | holds iff the key is Down, which counts as pressed and settles to Pressed |
| Input.InputHandler.KeyUp | engine/src/core/input/input_handler.cpp:480-482 | holds iff the key is Up, which counts as released and settles to Released |
| Input.InputHandler.MouseDown | engine/src/core/input/input_handler.cpp:453-455 | holds iff the button's slot is Down, which counts as pressed and settles to Pressed |
| Input.InputHandler.MouseUp | engine/src/core/input/input_handler.cpp:457-459 | holds iff the button's slot is Up, which counts as released and settles to Released |
| Input.InputHandler.GetKeyHeldTime | engine/src/core/input/input_handler.cpp:381-389 | 0 for a key with no timestamp or released, and otherwise the time since its timestamp, which must not lie in the future (365-369) |
| Input.InputHandler.GetMouseHeldTime | engine/src/core/input/input_handler.cpp:371-379 | 0 for a button with no timestamp or released, and otherwise the time since its timestamp, which must not lie in the future (365-369) |
| Input.InputHandler.KeyHeld | engine/src/core/input/input_handler.cpp:461-464 | a released key is held only for a time of 0; a pressed key with a timestamp is held for `time` exactly when that much time has passed since the timestamp |
| Input.InputHandler.MouseHeld | engine/src/core/input/input_handler.cpp:438-441 | the same for a mouse button |
| Input.InputHandler.Settle | engine/src/core/input/input_handler.cpp:236-264 | every key and button slot becomes Settled of its old state, Up slots are stamped with the current time, and the previous mouse position and scroll are reset; the whole new state is SettleSnap of the old |
| Input.SettleStates | engine/src/core/input/input_handler.cpp:237-263 | each slot of a table is Settled of its old state |
| Input.SettleTimes | engine/src/core/input/input_handler.cpp:237-248 | an Up slot is stamped with the current time and every other timestamp is kept |
| Input.SettleSnap | engine/src/core/input/input_handler.cpp:236-264 | the frame advance leaves no Up or Down slot in either table, keeps the table sizes, the emitted events, the mouse position and the quit flag |
| Input.SettleTable | engine/src/core/input/input_handler.cpp:237-263 | both loops over one table give SettleStates and SettleTimes of the old table |
| Input.InputHandler.HandleEvent | engine/src/core/input/input_handler.cpp:44-197 | the in-place writes of one event equal ProcessEvent on the old state |
| Input.InputHandler.HandleMouseDown | engine/src/core/input/input_handler.cpp:60-79 | equals ProcessEvent of a mouse-down |
| Input.InputHandler.HandleMouseUp | engine/src/core/input/input_handler.cpp:80-97 | equals ProcessEvent of a mouse-up |
| Input.InputHandler.HandleKeyDown | engine/src/core/input/input_handler.cpp:98-115 | equals ProcessEvent of a key-down |
| Input.InputHandler.HandleKeyUp | engine/src/core/input/input_handler.cpp:116-128 | equals ProcessEvent of a key-up |
| Input.InputHandler.WriteKey | engine/src/core/input/input_handler.cpp:98-128 | one key write: the slot of the code takes the new state and timestamp, the event is emitted, and the rest of the state is kept |
| Input.InputHandler.WriteMouse | engine/src/core/input/input_handler.cpp:60-97 | one button write: the slot takes the new state and timestamp, the event is emitted, and the rest of the state is kept |
| Input.InputHandler.HandleMouseMotion | engine/src/core/input/input_handler.cpp:48-59 | the mouse position becomes the event's and a move with its difference is emitted: ProcessEvent of the motion |
| Input.InputHandler.HandleMouseWheel | engine/src/core/input/input_handler.cpp:129-142 | the mouse position, the scroll and its timestamp become the event's, the scroll is added to the delta, and a scroll is emitted: ProcessEvent of the wheel |
| Input.InputHandler.HandleQuit | engine/src/core/input/input_handler.cpp:143-147 | a quit event is emitted and the application stops: ProcessEvent of the quit |
| Input.InputHandler.Poll | engine/src/core/input/input_handler.cpp:44-197 | the polling loop's final state equals ProcessEvents on the old state |
| Input.InputHandler.EmitHeld | engine/src/core/input/input_handler.cpp:199-211 | appends exactly HeldMouseEvents of the button table and changes nothing else |
| Input.InputHandler.EmitEvents | engine/src/core/input/input_handler.cpp:44-234 | the final state equals EmitAll: the events, the held buttons, then a move to the reported position |
| Input.InputHandler.Update | engine/src/core/input/input_handler.cpp:236-266 | the final state equals EmitAll applied to SettleSnap of the old state: the frame advance, then the events, the held buttons and the move; the previous mouse position is the old one; with no events every slot ends as Settled of its old state |
| Input.ReleaseUps | engine/src/core/input/input_handler.cpp:237-248 | every Up slot becomes Released and is stamped with the current time, and every other slot is unchanged |
| Input.PressDowns | engine/src/core/input/input_handler.cpp:254-263 | every Down slot becomes Pressed, and every other slot is unchanged |
| Movement.MoveImpl | src/components/movement.cpp:26-49 | with cancel set and no key pressed the velocity is zero; otherwise each axis gains -amount, +amount or nothing as its negative key, positive key or both or neither are pressed |
| Movement.OppositeKeysCancel | src/components/movement.cpp:35-48 | pressing both keys of an axis leaves the velocity on that axis unchanged |
| Movement.MoveImplMirror | src/components/movement.cpp:26-49 | swapping the left and right keys mirrors the change of the horizontal velocity |
| Movement.MoveTowards | src/components/movement.cpp:51-56 | the target when it is within maxDelta, and otherwise a step of exactly maxDelta toward it |
| Movement.MoveTowardsNoOvershoot | src/components/movement.cpp:51-56 | a step never exceeds maxDelta, stays between the current value and the target, and either reaches the target or shortens the distance by exactly maxDelta |
| Movement.GetDirectionState | src/components/movement.cpp:153-176 | a classified direction's unit vector is the input |
| Movement.DirectionStateRoundTrip | src/components/movement.cpp:153-176 | every direction's own unit vector classifies as that direction, and a vector classifies iff it is the unit vector of some direction |
| Movement.MovingStateOfDirection | src/components/movement.cpp:235-248 | moving along a direction's vector counts as moving in it, GetMovingState(d, None) holds iff d is (0,0), and a direction counts as moving left, right, up or down iff it sets that flag |
| Movement.UpdatedAxis | src/components/movement.cpp:98-112 | one key of an axis sets that axis to -1 or 1; both or neither zero it under orthogonal-only movement and keep the previous value otherwise |
| Movement.TopDownMovement.Move | src/components/movement.cpp:275-305 | Move(None) clears all four input flags, and every other direction sets exactly its own flags and keeps the rest |
| Movement.TopDownMovement.MoveVector | src/components/movement.cpp:266-273 | requires orthogonal-only movement to be off and sets the direction to the given vector |
| Movement.StepAxis | src/components/movement.cpp:98-112 | the branches of one axis compute UpdatedAxis |
| Movement.TopDownMovement.LatchInputs | src/components/movement.cpp:83-96 | with keys enabled a pressed key sets its flag and the other flags keep their values; with keys disabled no flag changes |
| Movement.TopDownMovement.SetDirection | src/components/movement.cpp:98-117 | each axis of the direction becomes UpdatedAxis of its flags, and a non-zero direction becomes the facing direction |
| Movement.TopDownMovement.UpdateDirection | src/components/movement.cpp:82-151 | pressed keys set the input flags, each axis of the direction becomes UpdatedAxis of its flags, the facing direction follows a non-zero direction, the previous direction becomes the new one, and the inputs are cleared for the next frame |
| Movement.TopDownMovement.IsMoving | src/components/movement.cpp:250-252 | moving in no direction means a zero direction; moving in a direction means each non-zero component of its unit vector is matched by the current direction (GetMovingState, 235-248) |
| Movement.TopDownMovement.WasMoving | src/components/movement.cpp:254-256 | the same test on the previous frame's direction |
| Noise.Signed | src/math/noise.h:34-41 | a 32-bit hash read as a two's-complement integer lies in [-2^31, 2^31) |
| Noise.GradientIndex | src/math/noise.h:46-48 | the masked gradient index is even and at most 254, so setting its low bit adds exactly one |
| Noise.GradientIndexInTable | src/math/noise.h:46-56 | both the gradient index and the index with its low bit set lie inside the 256-entry table, which is what the assertion at lines 50-53 checks |
| Noise.ValueFromHash | src/math/noise.h:40 | a 32-bit value scaled by 1/2^31 lies in [-1, 1) |
| Noise.ValueCoordinate | src/math/noise.h:34-41 | the value noise of any seed and coordinates lies in [-1, 1) |
| Noise.GradientsLength | src/math/noise.h:68-133 | the gradient table has exactly 256 entries |
| Noise.HashRecoversSeed | src/math/noise.h:135-142 | the hash is (seed ^ x ^ y) * 0x27d4eb2d in wrapping 32-bit arithmetic, and multiplying by the inverse 0xfb699ca5 and XOR-ing the coordinates back recovers the seed |
| Noise.HashSymmetric | src/math/noise.h:135-142 | the hash is unchanged when the seed and a coordinate, or the two coordinates, are swapped |
| Noise.GradientIndexIgnoresSignFill | src/math/noise.h:47-48 | the arithmetic right shift's sign fill never reaches the mask, so the index equals (hash ^ (hash >> 15)) & 254 |
| Noise.ValueHashEven | src/math/noise.h:37-39 | negating the hash does not change the squared-and-shifted value hash |
| Noise.ValueHashLowBits | src/math/noise.h:37-39 | the low 19 bits of the value hash are those of the squared hash, since the XOR with the left shift by 19 leaves them alone |
| ShaderTypeCode.ExtractEncode | tests/protegon/src/test_shader.h:30-46 | extracting type, count and size from the packed code returns the original three inputs |
| ShaderTypeCode.EncodeExtract | tests/protegon/src/test_shader.h:30-46 | repacking the three extracted fields of any 64-bit code gives the code back |
| ShaderTypeCode.EncodeInjective | tests/protegon/src/test_shader.h:30-31 | two field triples pack to the same code iff they are equal |
| ShaderTypeCode.EncodeAndExtract | tests/protegon/src/test_shader.h:24-55 | the round trip holds, and the code is inserted into the set of codes, which grows by at most one |
| ShaderTypeCode.CombinationsDistinct | tests/protegon/src/test_shader.h:74-112 | the 32 (size, count, type) combinations the test uses are pairwise different |
| ShaderTypeCode.CodeNotIn | tests/protegon/src/test_shader.h:30-31 | the code of fields that differ from each of a list's is not among the codes the list inserted |
| ShaderTypeCode.CodesOfCount | tests/protegon/src/test_shader.h:24-55 | inserting the codes of pairwise different fields gives as many codes as fields |
| ShaderTypeCode.TestCodesCount | tests/protegon/src/test_shader.h:74-112 | after the first n calls of the test the set holds exactly n codes |
| ShaderTypeCode.TestShaderCodesUnique | tests/protegon/src/test_shader.h:114 | the test's final set holds 32 distinct codes |
| SceneCore.Progress | engine/src/scene/scene_manager.h:83-89 | the slide's progress is min(1, accumulated / duration); it never exceeds 1, it is 1 exactly when the accumulated time reaches a positive duration, and it is non-negative while the accumulated time is |
| SceneCore.AdvanceRun | engine/src/scene/scene_manager.h:379-390 | one step adds dt to the run's accumulated time, records the new progress and keeps the run's indices, duration and kill flag |
| SceneCore.SlideFinishesAtDuration | engine/src/scene/scene_manager.h:83-89 | a slide over a positive duration reports finished exactly when its accumulated time reaches the duration, and its progress is then 1 |
| SceneCore.TopRunning | engine/src/scene/scene_manager.h:484-491 | the highest index whose entry is Running, with no Running entry above it, and None (SIZE_MAX) exactly when no entry is Running |
| SceneCore.TopIndex | engine/src/scene/scene_manager.h:480-482 | the last index, and None (SIZE_MAX) exactly when there are no entries |
| SceneCore.IndexOfId | engine/src/scene/scene_manager.h:493-500 | the first index carrying the id, and None (SIZE_MAX) exactly when no entry carries it |
| SceneCore.FindLive | engine/src/scene/scene_manager.h:193-218 | Get returns the first entry with the key that is not Dead, and finds one exactly when Has holds |
| SceneCore.InsertByZPermutes | engine/src/scene/scene_manager.h:502-506 | one insertion step of the resort adds the entry and loses none |
| SceneCore.SortByZPermutes | engine/src/scene/scene_manager.h:502-506 | ResortByZ permutes the entries |
| SceneCore.InsertByZIsInsertAt | engine/src/scene/scene_manager.h:502-506 | an insertion step places the entry at InsertPos and keeps the others in order around it |
| SceneCore.InsertPosSplits | engine/src/scene/scene_manager.h:502-506 | in a sorted list, every entry in front of the insertion point has a z at most the new one's and every entry behind it a larger z |
| SceneCore.InsertByZSorted | engine/src/scene/scene_manager.h:502-506 | an insertion step keeps a sorted list sorted |
| SceneCore.SortByZSorted | engine/src/scene/scene_manager.h:502-506 | ResortByZ yields a list ordered by z |
| SceneCore.InsertByZStable | engine/src/scene/scene_manager.h:502-506 | an insertion step keeps the order of the entries of each z, with the new entry behind its equals |
| SceneCore.SortByZStable | engine/src/scene/scene_manager.h:502-506 | ResortByZ is stable: the entries of each z keep their relative order |
| SceneCore.SortByZOfSorted | engine/src/scene/scene_manager.h:502-506 | resorting a list already ordered by z changes nothing |
| SceneCore.SortAppendIsInsert | engine/src/scene/scene_manager.h:307-316 | appending an entry to a sorted list and resorting inserts it at InsertPos |
| SceneCore.NonDead | engine/src/scene/scene_manager.h:508-515 | Compact leaves no Dead entry and never lengthens the list |
| SceneCore.NonDeadAppend | engine/src/scene/scene_manager.h:508-515 | compaction distributes over concatenation, so survivors keep their order |
| SceneCore.NonDeadMembers | engine/src/scene/scene_manager.h:508-515 | an entry survives compaction exactly when it was in the list and not Dead |
| SceneCore.NonDeadIdempotent | engine/src/scene/scene_manager.h:508-515 | compacting twice is compacting once |
| SceneCore.NonDeadOfLive | engine/src/scene/scene_manager.h:508-515 | a list without Dead entries is left as it is |
| SceneCore.RankFindsEntry | engine/src/scene/scene_manager.h:508-515 | a surviving entry is found in the compacted list at the number of survivors in front of it |
| SceneCore.NonDeadSorted | engine/src/scene/scene_manager.h:508-515 | compaction keeps the order by z |
| SceneCore.NonDeadSubset | engine/src/scene/scene_manager.h:508-515 | compaction keeps only entries of the list |
| SceneCore.NonDeadDistinct | engine/src/scene/scene_manager.h:508-515 | compaction keeps the ids distinct |
| SceneOps.StartPhases | engine/src/scene/scene_manager.h:371-377 | ApplyPoliciesOnStart makes `to` Entering and, when it is another entry, `from` Exiting, and leaves every other entry alone |
| SceneOps.ProcessSwitch | engine/src/scene/scene_manager.h:262-306 | a Switch whose running source is locked changes nothing; otherwise a new entry with the next id, the key and z one above the last is appended, and it is Running at once with no source, Running with the source Dead and Exit/Enter calls on an instant swap, or Entering with the source Exiting and a new run under a transition |
| SceneOps.ProcessSwitchValid | engine/src/scene/scene_manager.h:262-306 | a Switch keeps the list ordered by z, the ids distinct and below next_id_, and every run inside the list |
| SceneOps.OverlaySource | engine/src/scene/scene_manager.h:310 | the source index exists iff there are two or more entries and the overlay is not at index 0 (where to_index - 1 would wrap), and is then to_index - 1 |
| SceneOps.OverlayAt | engine/src/scene/scene_manager.h:311-316 | with a transition and a source the overlay is Entering, the entry below it Exiting, a run from it to the overlay is added with kill_from_on_end false and Exit is called on the source; otherwise the overlay is Running and nothing else changes |
| SceneOps.ProcessOverlay | engine/src/scene/scene_manager.h:307-317 | the corrected Overlay: a new entry enters at the pending z and the list grows by one with next_id_ advanced |
| SceneOps.OverlayEntersNewScene | engine/src/scene/scene_manager.h:307-317 | the corrected Overlay puts the new entry at its insertion point with its id, key and z, starts a run from the entry below it under a transition and makes it Running otherwise, and moves every older entry and run index one place back from that point |
| SceneOps.ProcessOverlayValid | engine/src/scene/scene_manager.h:307-317 | the corrected Overlay keeps the stage invariant |
| SceneOps.ProcessOverlayAsWritten | engine/src/scene/scene_manager.h:307-317 | the Overlay as written: IndexById of the back entry after the resort, with run indices not shifted |
| SceneOps.OverlayBelowTopAsWritten | engine/src/scene/scene_manager.h:307-317 | an overlay at z -1 under a running scene is left Entering as written, while the running scene above it is addressed instead; corrected, the overlay is Running |
| SceneOps.ProcessPop | engine/src/scene/scene_manager.h:318-335 | a Pop on an empty list or a locked top changes nothing; without a transition the top becomes Dead and the entry below it Running; with one, a killing run from the top to the entry below it (or to itself when it is the only one) starts |
| SceneOps.ProcessPopValid | engine/src/scene/scene_manager.h:318-335 | a Pop keeps the stage invariant |
| SceneOps.ProcessOp | engine/src/scene/scene_manager.h:261-336 | Switch and Replace take the Switch branch, Overlay and Pop their own, and Push does nothing |
| SceneOps.ProcessOpValid | engine/src/scene/scene_manager.h:261-336 | every operation keeps the stage invariant |
| SceneOps.ProcessOps | engine/src/scene/scene_manager.h:251-336 | processing a queue in order keeps the stage invariant and never lowers next_id_, so ids stay unique |
| SceneOps.ProcessOpSilent | engine/src/world/scene/scene_manager.h:250-327 | what an operation does to the list does not depend on the Enter/Exit calls, so the world variant, which makes none, follows the same steps |
| SceneOps.AdvanceRuns | engine/src/scene/scene_manager.h:380-390 | the first loop of StepTransitions advances every run by dt and keeps their number |
| SceneOps.FinishRun | engine/src/scene/scene_manager.h:393-403 | a finished run makes `to` Running with an Enter call, and `from` Dead when kill_from_on_end holds, otherwise Paused; nothing else changes |
| SceneOps.FinishFrom | engine/src/scene/scene_manager.h:392-404 | completing the finished runs, last index first, changes only entry phases |
| SceneOps.Unfinished | engine/src/scene/scene_manager.h:403 | the runs left after the erasures are never finished and never more than before |
| SceneOps.UnfinishedMembers | engine/src/scene/scene_manager.h:403 | a run is kept exactly when it was a run and has not finished |
| SceneOps.FinishedIndices | engine/src/scene/scene_manager.h:380-390 | `done` holds, ascending, exactly the indices of the finished runs |
| SceneOps.RemapRunDesignatesSame | engine/src/scene/scene_manager.h:508-515 | the corrected remapping of a run whose entries survive compaction points at the same two entries in the compacted list and keeps its progress, transition and kill flag |
| SceneOps.CompactRuns | engine/src/scene/scene_manager.h:508-515 | the corrected runs after compaction all lie inside the compacted list, and every run whose entries survive is kept, remapped |
| SceneOps.CompactStage | engine/src/scene/scene_manager.h:508-515 | the corrected Compact removes exactly the Dead entries and keeps the stage invariant |
| SceneOps.CompactAsWritten | engine/src/scene/scene_manager.h:508-515 | Compact as written removes the Dead entries and keeps the runs' indices unchanged |
| SceneOps.StepStage | engine/src/scene/scene_manager.h:379-406 | after StepTransitions no run is finished, no entry is Dead, next_id_ is kept and the stage invariant holds |
| SceneOps.StepStageAsWritten | engine/src/scene/scene_manager.h:379-406 | StepTransitions as written, with run indices kept across the compaction |
| SceneOps.StaleRunAsWritten | engine/src/scene/scene_manager.h:379-406 | after Switch A, Switch B with a 0.1 s slide and Overlay O at z 100 with a 10 s slide, one 0.5 s step leaves, as written, a run pointing past the end of the list; with the correction every run stays inside it |
| EngineScene.SceneManager.constructor | engine/src/scene/scene_manager.h:241-249 | an empty manager with next_id_ 1 that satisfies the invariant |
| EngineScene.SceneManager.Enqueue | engine/src/scene/scene_manager.h:363-369 | during a flush an operation goes to the deferred queue, otherwise to the queue |
| EngineScene.SceneManager.SwitchTo | engine/src/scene/scene_manager.h:133-147 | enqueues a Switch for the key with the transition |
| EngineScene.SceneManager.Overlay | engine/src/scene/scene_manager.h:150-164 | enqueues an Overlay and records its z as the pending overlay z |
| EngineScene.SceneManager.PopTop | engine/src/scene/scene_manager.h:166-172 | appends a Pop straight to the queue, bypassing the deferral |
| EngineScene.SceneManager.Get | engine/src/scene/scene_manager.h:200-208 | the loop returns FindLive, and finds an entry exactly when Has holds |
| EngineScene.SceneManager.TopRunningIndex | engine/src/scene/scene_manager.h:484-491 | the backward loop returns TopRunning |
| EngineScene.SceneManager.IndexById | engine/src/scene/scene_manager.h:493-500 | the forward loop returns IndexOfId |
| EngineScene.SceneManager.IsSceneLocked | engine/src/scene/scene_manager.h:252-259 | the loop over the runs returns whether some run starts or ends at the index |
| EngineScene.SceneManager.ApplyPoliciesOnStart | engine/src/scene/scene_manager.h:371-377 | the entries become StartPhases and Exit is called on `from` |
| EngineScene.SceneManager.ProcessSwitchOp | engine/src/scene/scene_manager.h:262-306 | the in-place Switch equals ProcessSwitch |
| EngineScene.SceneManager.ProcessOverlayOp | engine/src/scene/scene_manager.h:307-317 | the in-place Overlay equals the corrected ProcessOverlay |
| EngineScene.SceneManager.ProcessPopOp | engine/src/scene/scene_manager.h:318-335 | the in-place Pop equals ProcessPop |
| EngineScene.SceneManager.ProcessOperation | engine/src/scene/scene_manager.h:261-336 | one in-place operation equals ProcessOp |
| EngineScene.SceneManager.ProcessOperations | engine/src/scene/scene_manager.h:251-336 | the loop over a queue equals ProcessOps |
| EngineScene.SceneManager.Compact | engine/src/scene/scene_manager.h:508-515 | the in-place compaction equals the corrected CompactStage |
| EngineScene.SceneManager.FlushOps | engine/src/scene/scene_manager.h:338-361 | an empty queue changes nothing; otherwise the stage becomes the compacted ProcessOps of the queue, the operations enqueued during the flush become the queue, the deferred queue is empty and the invariant holds |
| EngineScene.SceneManager.DrainQueue | engine/src/scene/scene_manager.h:345-350 | the while loop empties the queue and the stage becomes ProcessOps of it |
| EngineScene.SceneManager.StepRuns | engine/src/scene/scene_manager.h:380-390 | the runs become AdvanceRuns and `done` lists exactly their finished indices, ascending |
| EngineScene.SceneManager.FinishDone | engine/src/scene/scene_manager.h:392-404 | the entries and calls become FinishFrom and the runs Unfinished of the old runs |
| EngineScene.SceneManager.CompleteRun | engine/src/scene/scene_manager.h:393-402 | the in-place completion equals FinishRun |
| EngineScene.SceneManager.StepTransitions | engine/src/scene/scene_manager.h:379-406 | the in-place step equals StepStage |
| EngineScene.SceneManager.Update | engine/src/scene/scene_manager.h:174-181 | FlushOps then StepTransitions: the stage becomes StepStage of the flushed stage and the invariant holds |
| WorldScene.SceneManager.constructor | engine/src/world/scene/scene_manager.h:228-234 | an empty manager with next_id_ 1 that satisfies the invariant |
| WorldScene.SceneManager.SwitchTo | engine/src/world/scene/scene_manager.h:138-147 | appends a Switch straight to the queue |
| WorldScene.SceneManager.Overlay | engine/src/world/scene/scene_manager.h:150-162 | appends an Overlay and records its z as the pending overlay z |
| WorldScene.SceneManager.PopTop | engine/src/world/scene/scene_manager.h:164-170 | appends a Pop to the queue |
| WorldScene.SceneManager.Get | engine/src/world/scene/scene_manager.h:191-213 | the loop returns FindLive, and finds an entry exactly when Has holds |
| WorldScene.SceneManager.TopRunningIndex | engine/src/world/scene/scene_manager.h:441-448 | the backward loop returns TopRunning |
| WorldScene.SceneManager.IndexById | engine/src/world/scene/scene_manager.h:450-457 | the forward loop returns IndexOfId |
| WorldScene.SceneManager.IsSceneLocked | engine/src/world/scene/scene_manager.h:242-249 | the loop over the runs returns whether some run starts or ends at the index |
| WorldScene.SceneManager.ApplyPoliciesOnStart | engine/src/world/scene/scene_manager.h:332-337 | the entries become StartPhases, with no Exit call |
| WorldScene.SceneManager.ProcessSwitchOp | engine/src/world/scene/scene_manager.h:251-289 | the in-place Switch equals ProcessSwitch without calls |
| WorldScene.SceneManager.ProcessOverlayOp | engine/src/world/scene/scene_manager.h:290-308 | the in-place Overlay equals the corrected ProcessOverlay without calls |
| WorldScene.SceneManager.ProcessPopOp | engine/src/world/scene/scene_manager.h:309-326 | the in-place Pop equals ProcessPop without calls |
| WorldScene.SceneManager.ProcessOperation | engine/src/world/scene/scene_manager.h:250-327 | one in-place operation equals ProcessOp without calls |
| WorldScene.SceneManager.Compact | engine/src/world/scene/scene_manager.h:465-472 | the in-place compaction equals the corrected CompactStage |
| WorldScene.SceneManager.FlushOps | engine/src/world/scene/scene_manager.h:237-330 | the queue is processed once in order and cleared, the stage becomes the compacted ProcessOps of it, no Dead entry remains and the invariant holds |
| WorldScene.SceneManager.StepRuns | engine/src/world/scene/scene_manager.h:340-350 | the runs become AdvanceRuns and `done` lists exactly their finished indices, ascending |
| WorldScene.SceneManager.FinishDone | engine/src/world/scene/scene_manager.h:352-361 | the entries become FinishFrom and the runs Unfinished of the old runs |
| WorldScene.SceneManager.CompleteRun | engine/src/world/scene/scene_manager.h:353-359 | the in-place completion equals FinishRun |
| WorldScene.SceneManager.StepTransitions | engine/src/world/scene/scene_manager.h:339-363 | the in-place step equals StepStage without calls |
| WorldScene.SceneManager.Update | engine/src/world/scene/scene_manager.h:172-179 | FlushOps then StepTransitions: the queue ends empty, the stage becomes StepStage of the flushed stage and the invariant holds |
| ButtonTypes.Ordinal | engine/src/ui/button.h:43-50 | each internal state has the number the enum declares, below 6, and that number maps back to the state |
| ButtonTypes.OrdinalsAreExactlyZeroToFive | engine/src/ui/button.h:43-50 | the six internal states are numbered 0 to 5 without gaps and without repeats |
| ButtonTypes.ButtonColor.Get | engine/src/ui/button.cpp:155-163 | one of the four stored colours, the shown one for Current |
| ButtonTypes.ButtonColor.SetToState | engine/src/ui/button.cpp:151-164 | the shown colour becomes the colour of the state and the per-state colours stay |
| ButtonTypes.UniformButtonColor | engine/src/ui/button.h:164-165 | ButtonColor(c) gives c for every state, so setting any state changes nothing |
| ButtonTypes.ButtonTexture.Get | engine/src/ui/button.cpp:260-269 | every drawable state has its texture, and asking for Current is the error case |
| ButtonTypes.UniformButtonTexture | engine/src/ui/button.h:208 | ButtonTexture(key) gives key for every drawable state |
| EngineButton.StateOf | engine/src/ui/button.cpp:798-811 | Hover and HoverPressed report Hover, Pressed and HeldOutside report Pressed, IdleUp and IdleDown report Default, and nothing reports Current |
| EngineButton.MoveOverState | engine/src/ui/button.cpp:38-56 | moving over makes the reported state Hover or Pressed, and changes exactly IdleUp, IdleDown and HeldOutside |
| EngineButton.MoveOverActions | engine/src/ui/button.cpp:38-56 | moving over queues nothing exactly when a held press is regained, otherwise ends with a hover, and starts a hover exactly from IdleUp and IdleDown |
| EngineButton.MoveOutState | engine/src/ui/button.cpp:57-74 | moving out never reports Hover, and changes exactly Hover, Pressed and HoverPressed |
| EngineButton.MoveOutActions | engine/src/ui/button.cpp:57-74 | moving out queues one hover stop exactly when it changes the state |
| EngineButton.MoveOverOutInverse | engine/src/ui/button.cpp:38-74 | moving out undoes moving over on the states over changes, and moving over undoes moving out on the states out changes |
| EngineButton.DownOverState | engine/src/ui/button.cpp:75-86 | a left press over the button changes only Hover, to Pressed |
| EngineButton.DownOutState | engine/src/ui/button.cpp:87-98 | a left press outside changes only IdleUp, to IdleDown |
| EngineButton.UpOverState | engine/src/ui/button.cpp:99-113 | a left release over the button changes only Pressed and HoverPressed, to Hover |
| EngineButton.UpOutState | engine/src/ui/button.cpp:114-127 | a left release outside changes only IdleDown and HeldOutside, to IdleUp |
| EngineButton.ClickActivates | engine/src/ui/button.cpp:75-113 | a left press and release over a hovered button activates it and returns it to Hover |
| EngineButton.DragInDoesNotActivate | engine/src/ui/button.cpp:38-113 | pressing outside, moving in and releasing leaves the button hovered without activating it |
| EngineButton.Button.constructor | engine/src/ui/button.cpp:1066-1079 | CreateButton: IdleUp, enabled for activation and hover, and no actions, toggle, group key or widths |
| EngineButton.Button.IsEnabled | engine/src/ui/button.cpp:481-490 | false without a ButtonEnabled component, otherwise the hover or the activate flag as asked |
| EngineButton.Button.SetEnabled | engine/src/ui/button.cpp:472-479 | both flags are stored and read back by IsEnabled, and the state is reset to IdleUp only when asked |
| EngineButton.Button.IsToggled | engine/src/ui/button.cpp:840-842 | a toggle button reports toggled exactly when its toggle component holds true |
| EngineButton.Button.Enable | engine/src/ui/button.cpp:464-466 | activation on, hover as given, state reset as asked |
| EngineButton.Button.Disable | engine/src/ui/button.cpp:468-470 | activation off, hover off when asked, state reset as asked |
| EngineButton.Button.Activate | engine/src/ui/button.cpp:812-817 | queues an activation exactly when activation is enabled and the entity has scripts |
| EngineButton.Button.StartHover | engine/src/ui/button.cpp:819-824 | queues a hover start exactly when hover is enabled and the entity has scripts |
| EngineButton.Button.ContinueHover | engine/src/ui/button.cpp:826-831 | queues a hover exactly when hover is enabled and the entity has scripts |
| EngineButton.Button.StopHover | engine/src/ui/button.cpp:833-838 | queues a hover stop exactly when hover is enabled and the entity has scripts |
| EngineButton.Button.OnMouseMoveOver | engine/src/ui/button.cpp:38-56 | with hover disabled nothing changes; otherwise the state becomes MoveOverState and the queued actions MoveOverActions |
| EngineButton.Button.OnMouseMoveOut | engine/src/ui/button.cpp:57-74 | with hover disabled nothing changes; otherwise the state becomes MoveOutState and the queued actions MoveOutActions |
| EngineButton.Button.OnMouseDownOver | engine/src/ui/button.cpp:75-86 | with activation enabled the state becomes DownOverState, otherwise it is kept |
| EngineButton.Button.OnMouseDownOut | engine/src/ui/button.cpp:87-98 | with activation enabled the state becomes DownOutState, otherwise it is kept |
| EngineButton.Button.OnMouseUpOver | engine/src/ui/button.cpp:99-113 | with activation enabled the state becomes UpOverState, and a release completing a press over the button queues an activation |
| EngineButton.Button.OnMouseUpOut | engine/src/ui/button.cpp:114-127 | with activation enabled the state becomes UpOutState, otherwise it is kept |
| EngineButton.Button.GetState | engine/src/ui/button.cpp:798-811 | the reported state is StateOf of the internal state |
| EngineButton.Button.GetBackgroundLineWidth | engine/src/ui/button.cpp:764-767 | without the component the width is the default -1 (solid) |
| EngineButton.Button.SetBackgroundLineWidth | engine/src/ui/button.cpp:769-777 | a width in [0, 1) drops the component so the getter reports -1, and any other accepted width is read back |
| EngineButton.Button.GetBorderWidth | engine/src/ui/button.cpp:779-782 | without the component the width is the default 1 |
| EngineButton.Button.SetBorderWidth | engine/src/ui/button.cpp:784-792 | a zero width drops the component so the getter reports 1, and any other accepted width is read back |
| EngineButton.Button.SetToggled | engine/src/ui/button.cpp:844-848 | the toggle flag becomes the value |
| EngineButton.Button.Toggle | engine/src/ui/button.cpp:850-854 | the toggle flag flips |
| EngineButton.Button.OnToggleScriptActivate | engine/src/ui/button.cpp:128-134 | an activation flips the toggle exactly when activation is enabled |
| EngineButton.ToggleButtonGroup.constructor | engine/src/ui/button.cpp:1100-1106 | an empty group |
| EngineButton.ToggleButtonGroup.Load | engine/src/ui/button.cpp:993-1011 | the button is stored under the key, replacing one already there, and tagged with the key |
| EngineButton.ToggleButtonGroup.Unload | engine/src/ui/button.cpp:1013-1025 | the key is erased, and a key not loaded changes nothing |
| EngineButton.ToggleButtonGroup.GetActive | engine/src/ui/button.cpp:1027-1039 | the active key is returned exactly when it is loaded and its button is toggled |
| EngineButton.ToggleButtonGroup.SetActive | engine/src/ui/button.cpp:1041-1060 | every other button is untoggled, the key's button is toggled and becomes the active one, so GetActive returns it |
| EngineButton.ToggleButtonGroup.OnGroupScriptActivate | engine/src/ui/button.cpp:139-150 | an enabled member's activation makes its key the active one; a disabled member changes nothing |
| LegacyButton.StateOf | src/ui/button.cpp:311-319 | GetState reports Hover only for Hover, Pressed only for Pressed, and Default otherwise |
| LegacyButton.StateOfDiffersFromEngine | src/ui/button.cpp:311-319 | the old GetState differs from the newer one exactly on HeldOutside and HoverPressed |
| LegacyButton.MoveInsideState | src/ui/button.cpp:190-200 | a move inside changes only IdleUp, to Hover |
| LegacyButton.MoveOutsideState | src/ui/button.cpp:202-212 | a move outside changes only Hover, to IdleUp |
| LegacyButton.Button.constructor | src/ui/button.cpp:28-32 | the button is subscribed, enabled, has no callbacks beyond the activate one, and starts Hover when the pointer is inside and IdleUp otherwise |
| LegacyButton.Button.StartHover | src/ui/button.cpp:91-100 | an enabled button calls its hover-start callback, a disabled one nothing |
| LegacyButton.Button.StopHover | src/ui/button.cpp:102-111 | an enabled button calls its hover-stop callback, a disabled one nothing |
| LegacyButton.Button.OnMouseMove | src/ui/button.cpp:190-200 | a disabled button is unchanged; otherwise the state becomes MoveInsideState and hover starts exactly from IdleUp |
| LegacyButton.Button.OnMouseMoveOutside | src/ui/button.cpp:202-212 | a disabled button is unchanged; otherwise the state becomes MoveOutsideState and hover stops exactly from Hover |
| LegacyButton.Button.OnMouseEnter | src/ui/button.cpp:214-228 | a disabled button is unchanged; otherwise IdleUp, IdleDown and HeldOutside become Hover, HoverPressed and Pressed, and hover starts |
| LegacyButton.Button.OnMouseLeave | src/ui/button.cpp:230-244 | a disabled button is unchanged; otherwise Hover, Pressed and HoverPressed become IdleUp, HeldOutside and IdleDown, and hover stops |
| LegacyButton.Button.OnMouseDown | src/ui/button.cpp:246-253 | an enabled button's state becomes DownOverState |
| LegacyButton.Button.OnMouseDownOutside | src/ui/button.cpp:255-262 | an enabled button's state becomes DownOutState |
| LegacyButton.Button.OnMouseUpOutside | src/ui/button.cpp:281-292 | an enabled button's state becomes UpOutState |
| LegacyButton.Button.OnMouseMoveEvent | src/ui/button.cpp:141-155 | on an enabled button, a move inside runs OnMouseMove and one outside OnMouseMoveOutside, then OnMouseEnter when the pointer came in or OnMouseLeave when it went out; for each of the four in/out cases the new state and the calls appended are stated, and all of them are Moved of the old state; a disabled button is unchanged |
| LegacyButton.Button.RecheckState | src/ui/button.cpp:298-304 | an enabled button runs a move from outside to the pointer: inside it takes the move-over state and starts hover (twice from IdleUp), outside it takes the move-outside state and stops hover from Hover; a disabled button is unchanged; the result is Rechecked of the old state |
| LegacyButton.Button.Activate | src/ui/button.cpp:80-89 | an enabled button appends its activate call and then rechecks, so its new state and calls are ActivatedBy of the old state; a disabled button is unchanged |
| LegacyButton.Button.OnMouseUp | src/ui/button.cpp:264-279 | on an enabled button, a left release that completes a press activates; a toggle button (398-410) flips its flag exactly then and does not recheck, a plain button rechecks; the new state and calls are Released of the old state; a disabled button is unchanged |
| LegacyButton.Button.OnMouseEvent | src/ui/button.cpp:136-176 | a disabled button ignores every event; a move is OnMouseMoveEvent (Moved), a press inside or outside takes DownOverState or DownOutState with no calls, a release inside is OnMouseUp (Released, with the toggle flag) and a release outside takes UpOutState with no calls |
| LegacyButton.Button.SetInteractable | src/ui/button.cpp:54-78 | enabling an unsubscribed button subscribes and enables it, rechecks (Rechecked) and calls the enable callback; disabling a subscribed one unsubscribes and disables it, resets it to IdleUp, stops hover if it was enabled and calls the disable callback; a request matching the subscription changes nothing |
| LegacyButton.Button.GetState | src/ui/button.cpp:311-319 | the reported state is StateOf of the internal state |
| LegacyButton.Button.Toggle | src/ui/button.cpp:420-423 | the button activates (ActivatedBy of its state) and its toggle flag flips |
| LegacyButton.Button.EnterFromIdleHoversTwice | src/ui/button.cpp:141-155 | entering from IdleUp runs OnMouseMove and OnMouseEnter, which both start hover, so the hover callback runs twice |
| LegacyButton.Button.RecheckSettles | src/ui/button.cpp:298-304 | a second recheck leaves the state where the first left it |
| LegacyButton.Button.ReleaseInsideActivatesOnce | src/ui/button.cpp:264-279 | releasing a pressed plain button with the pointer inside activates once and ends in Hover, starting hover through the recheck in Activate and again through the recheck in OnMouseUp |
| LegacyButton.Button.ReleaseOutsideStopsHover | src/ui/button.cpp:264-279 | the same release with the pointer outside activates once and ends in IdleUp, stopping hover once |
| LegacyButton.Button.ToggleReleaseActivates | src/ui/button.cpp:398-410 | releasing a pressed toggle button inside activates and rechecks only once, because its OnMouseUp does not recheck |
| LegacyButton.Button.ReleaseWithoutPressQuiet | src/ui/button.cpp:264-279 | a release that does not complete a press never activates |
| DiceGrid.Contains | demos/gmtk_jam_2022/src/Application.cpp:27-32 | the linear search succeeds iff the value is in the container |
| DiceGrid.Grid.constructor | demos/gmtk_jam_2022/src/Application.cpp:49 | a grid of the given size and tile size with no tiles |
| DiceGrid.Grid.AddTile | demos/gmtk_jam_2022/src/Application.cpp:55-58 | emplace: an empty in-bounds cell gets the tile, and an occupied one keeps its tile |
| DiceGrid.Grid.AddTiles | demos/gmtk_jam_2022/src/Application.cpp:59-62 | every cell of the sequence but the last becomes occupied, old tiles are kept, and every newly occupied cell holds the given tile |
| DiceGrid.Grid.Permits | demos/gmtk_jam_2022/src/Application.cpp:63-70 | true iff every cell of the sequence is in bounds and empty or holding an ignored tile type |
| DiceGrid.Grid.WinCondition | demos/gmtk_jam_2022/src/Application.cpp:71-77 | true iff some cell of the sequence holds the win tile |
| DiceGrid.Grid.HasTile | demos/gmtk_jam_2022/src/Application.cpp:78-82 | true iff the cell holds a tile and the type list is empty or names its type |
| DiceGrid.Grid.GetTile | demos/gmtk_jam_2022/src/Application.cpp:83-88 | returns the tile the occupied cell holds |
| DiceGrid.Grid.Clear | demos/gmtk_jam_2022/src/Application.cpp:95-97 | no tiles remain |
| DiceGrid.ClosestAxis | demos/gmtk_jam_2022/src/Application.cpp:105-124 | the result is one of the four unit axes and has the largest dot product with the direction |
| DiceGrid.GetAbsoluteSequence | demos/gmtk_jam_2022/src/Application.cpp:162-166 | every offset is moved by the tile, and the length is kept |
| DiceGrid.PartialSum | demos/gmtk_jam_2022/src/Application.cpp:208-212 | std::partial_sum in place: element i becomes the sum of the first i + 1 elements |
| DiceGrid.CumulativeSum | demos/gmtk_jam_2022/src/Application.cpp:208-212 | every sequence is replaced by its partial sums, and all lengths are kept |
| DiceGrid.BuildSequence | demos/gmtk_jam_2022/src/Application.cpp:177-195 | the validation loop accepts a position vector iff its walk from the origin never revisits a cell (turning back is one such revisit), and then returns that walk |
| DiceGrid.WalkIsRollPath | demos/gmtk_jam_2022/src/Application.cpp:191-194 | an accepted walk without its origin starts at the first direction and moves one direction at a time without repeating a cell |
| DiceGrid.Combinations | demos/gmtk_jam_2022/src/Application.cpp:177-202 | the recursion keeps the sequences already there, appends at most directions^(remaining positions) new ones, each a roll path of one cell more than there are positions, and leaves the fixed positions alone |
| DiceGrid.PushNeighbours | demos/gmtk_jam_2022/src/Application.cpp:254-260 | the inner loop queues exactly the open, unvisited neighbours, in the source's neighbour order |
| DiceGrid.RouteExtend | demos/gmtk_jam_2022/src/Application.cpp:254-260 | a route extended by an open neighbour is a route to that neighbour |
| DiceGrid.ClosedHoldsRoute | demos/gmtk_jam_2022/src/Application.cpp:237-263 | a set of cells holding the start and closed under open neighbours holds the end of every route from the start |
| DiceGrid.SearchStep | demos/gmtk_jam_2022/src/Application.cpp:243-261 | one iteration that does not reach the win tile keeps the search invariant: every queued or visited cell has a route, and the visited cells are closed up to the queue |
| DiceGrid.SearchDecreases | demos/gmtk_jam_2022/src/Application.cpp:243-261 | one iteration lowers the termination measure, although the queue may hold duplicates |
| DiceGrid.CanWin | demos/gmtk_jam_2022/src/Application.cpp:237-263 | the breadth-first search returns true iff a route of open cells leads from the player's tile to the win tile |
| DiceGrid.ClosedReachesAll | demos/gmtk_jam_2022/src/Application.cpp:237-263 | when the search ends without the win tile, no route reaches it |
| TweenStates.RewoundAll | src/tweens/tween.cpp:159-175 | every point is rewound to no repeats done and its start direction, and the number of points is kept |
| TweenStates.Tween.constructor | src/tweens/tween.cpp:34 | a Stopped tween with no points at progress 0 and index 0 |
| TweenStates.Tween.IsCompleted | src/tweens/tween.cpp:87-90 | completed exactly in the Completed state, which is never started |
| TweenStates.Tween.IsRunning | src/tweens/tween.cpp:92-95 | running exactly in the Started state, which is never paused |
| TweenStates.Tween.IsStarted | src/tweens/tween.cpp:97-100 | started exactly when running or paused |
| TweenStates.Tween.IsPaused | src/tweens/tween.cpp:102-105 | paused exactly in the Paused state |
| TweenStates.Tween.During | src/tweens/tween.cpp:36-41 | a point of the given non-negative duration is appended, everything else is kept, and the total duration grows by that duration |
| TweenStates.Tween.Reset | src/tweens/tween.cpp:159-175 | progress and index return to 0, the tween is Stopped, and every point is rewound |
| TweenStates.Tween.Start | src/tweens/tween.cpp:107-117 | a running tween is left alone unless forced; otherwise it is reset and Started |
| TweenStates.Tween.Stop | src/tweens/tween.cpp:119-126 | a started or paused tween becomes Stopped, and any other is left as it is |
| TweenStates.Tween.Pause | src/tweens/tween.cpp:128-136 | only a started tween becomes Paused |
| TweenStates.Tween.Resume | src/tweens/tween.cpp:138-146 | only a paused tween becomes Started |
| TweenStates.Tween.Toggle | src/tweens/tween.cpp:148-157 | a started tween pauses and a paused one resumes, both keeping points, progress and index; a stopped or completed one starts afresh at progress 0 and index 0 with every point rewound |
| TweenStates.Tween.Clear | src/tweens/tween.cpp:177-182 | no points remain and the tween is reset |
| TweenStates.Tween.Repeat | src/tweens/tween.cpp:189-203 | Repeat(0) does nothing, Repeat(-1) makes the last point repeat forever, and Repeat(n) gives it n + 1 passes; the other points are kept |
| TweenStates.Tween.Reverse | src/tweens/tween.cpp:205-210 | the last point's start and current direction become the given one, and the other points are kept |
| TweenStates.Tween.Yoyo | src/tweens/tween.cpp:212-215 | the last point's yoyo flag becomes the given one, and the other points are kept |
| TweenStates.Tween.GetLinearProgress | src/tweens/tween.cpp:217-223 | the progress lies in [0, 1] and is mirrored (1 - progress) while the current point runs reversed |
| TweenStates.Tween.GetRepeats | src/tweens/tween.cpp:235-240 | the current point's repeat count, and 0 past the last point |
| TweenStates.Tween.SetDuration | src/tweens/tween.cpp:247-256 | only the duration of point i changes |
| TweenStates.Tween.GetTotalDuration | src/tweens/tween.cpp:440-447 | the loop returns the sum of the point durations |
| TweenStates.Tween.IncrementPoint | src/tweens/tween.cpp:331-357 | with points left the next one becomes current, rewound, at progress 0; at the last point the tween completes at progress 1; with no points nothing changes |
| TweenStates.Tween.RemoveLastTweenPoint | src/tweens/tween.cpp:359-372 | the last point is dropped and an index on it moves back one, so the index stays on a remaining point |
| TweenStates.Tween.Step | src/tweens/tween.cpp:268-329 | a non-positive dt or a tween not Started changes nothing; otherwise an empty tween completes, a running one stays Started or completes at the last point with progress 1, progress stays in [0, 1], the index never moves back, and durations, repeat budgets and yoyo flags are kept with each point's direction its start direction turned once per yoyo flip; the new state is StepSpec of the old |
| TweenStates.Tween.EndPass | src/tweens/tween.cpp:296-327 | the end of a pass counts it and then turns a yoyo point round and restarts it, restarts a repeating point, or moves to the next point; the new state is PassEnded of the old |
| TweenStates.Tween.StepOnce | src/tweens/tween.cpp:276-327 | one turn of the step loop: the new state and the time left are Iterate of the old state and time; the tween stays Started or completes at progress 1 on the last point |
| TweenStates.Incremented | src/tweens/tween.cpp:331-357 | IncrementPoint on a snapshot: the tween either completes at progress 1 on the same point, or moves one point on at progress 0 |
| TweenStates.PassEnded | src/tweens/tween.cpp:296-327 | the end of a pass keeps the tween valid and the number of points; it stays Started at progress 0 or completes |
| TweenStates.Iterate | src/tweens/tween.cpp:276-327 | one turn of the step loop keeps the tween valid, Started or Completed, and while it runs uses up time or restarts a pass from progress 0 |
| TweenStates.IterateOvershoot | src/tweens/tween.cpp:285-296 | a time step that reaches the end of a pass ends it, and the time left is the overshoot scaled back by the duration |
| TweenStates.StepLoop | src/tweens/tween.cpp:276-329 | the whole step loop keeps the tween valid, with the same number of points, and leaves it Started or Completed |
| TweenStates.StepWithinPass | src/tweens/tween.cpp:276-284 | a step that stays inside the pass only advances the progress by dt / duration |
| TweenStates.StepZeroLength | src/tweens/tween.cpp:285-296 | a zero-length point ends its pass at once and counts one more repeat |
| TweenStates.IterateForever | src/tweens/tween.cpp:296-315 | a point that repeats forever keeps the tween Started on the same point |
| TweenStates.ForeverKeepsRunning | src/tweens/tween.cpp:276-329 | however long the step, a point that repeats forever is never left and the tween never completes |
| TweenStates.IterateCounts | src/tweens/tween.cpp:296-327 | one turn never goes back a point, and on the same point never lowers the repeat count |
| TweenStates.StepCountsPasses | src/tweens/tween.cpp:276-329 | a whole step never goes back a point, and on the same point never lowers the repeat count |
| TweenStates.KeepsFinishPass | src/tweens/tween.cpp:301-315 | counting a pass keeps every point's shape and the yoyo directions consistent |
| TweenStates.KeepsRewound | src/tweens/tween.cpp:331-357 | rewinding a point keeps the shapes and leaves its direction consistent with its flips |
| TweenStates.FinishPass | src/tweens/tween.cpp:301-315 | the pass count grows by one, and a yoyo point that will repeat turns round, so its direction stays consistent with its flips |
| TweenStates.PassTime | src/tweens/tween.cpp:285-296 | a pass ending inside the time step uses up time, so the step loop terminates |
| TweeningTween.NewPoint | src/tweening/tween.cpp:173-177 | a new point has the given duration, is already rewound, and completes after one pass |
| TweeningTween.RewoundAll | src/tweening/tween.cpp:453-456 | every point gets repeat count 0 and its start direction, and the number of points is kept |
| TweeningTween.CompletesExactly | src/tweening/tween.cpp:405-422 | from repeat count c under a budget of `total` passes, the point completes after exactly total - c passes and not after one fewer |
| TweeningTween.RepeatRunsPasses | src/tweening/tween.cpp:213-222 | after Repeat(n) a fresh point runs exactly n + 1 passes before completing |
| TweeningTween.ForeverNeverCompletes | src/tweening/tween.cpp:213-222 | a point with Repeat(-1) never completes, however many passes run |
| TweeningTween.Counted | src/tweening/tween.cpp:408-412 | at progress 1 the repeat count advances while the budget allows (always when it is -1), below 1 the point is unchanged, and nothing but the count changes |
| TweeningTween.ProgressOf | src/tweening/tween.cpp:112-124 | GetProgress on a snapshot lies in [0, 1] |
| TweeningTween.NextPoint | src/tweening/tween.cpp:349-365 | PointCompleted on a snapshot keeps it valid, with the same number of points and pause flag |
| TweeningTween.Handled | src/tweening/tween.cpp:367-403 | HandleCallbacks on a snapshot keeps it valid, with the same number of points and pause flag |
| TweeningTween.Updated | src/tweening/tween.cpp:405-422 | UpdateImpl on a snapshot keeps it valid, with the same number of points and pause flag |
| TweeningTween.AccLoop | src/tweening/tween.cpp:536-549 | k turns of the pass loop, stopping once the tween finishes: the snapshot stays valid and the result lies in [0, 1] |
| TweeningTween.Accumulated | src/tweening/tween.cpp:522-550 | AccumulateProgress on a snapshot keeps it valid, with the same number of points, and its result lies in [0, 1] |
| TweeningTween.AccLoopUnfold | src/tweening/tween.cpp:536-549 | one turn of the loop is Updated at progress 1, ending the loop when the tween finishes |
| TweeningTween.AccLoopStays | src/tweening/tween.cpp:522-550 | k passes that do not complete the point leave the fractional progress, the same point still running, and its repeat count advanced by CountPasses |
| TweeningTween.AccLoopCompletes | src/tweening/tween.cpp:522-550 | on the last point, passes that reach its budget finish the tween with result 1 |
| TweeningTween.AccumulateCountsPasses | src/tweening/tween.cpp:522-550 | a progress of n and a fraction that does not complete the point counts n passes and keeps the fraction |
| TweeningTween.AccumulateForever | src/tweening/tween.cpp:522-550 | a point that repeats forever keeps the fraction and stays current, however large the progress |
| TweeningTween.AccumulateRepeat | src/tweening/tween.cpp:213-222 | after Repeat(n) the last point is still running after n passes and finishes the tween at pass n + 1 |
| TweeningTween.SoughtLands | src/tweening/tween.cpp:510-520 | seeking a running tween to a progress below 1 sets exactly that progress and reports GetProgress of it |
| TweeningTween.SeekedLands | src/tweening/tween.cpp:183-188 | Seek to a progress below 1 sets exactly that progress and reports GetProgress of it |
| TweeningTween.StepWithinPass | src/tweening/tween.cpp:502-508 | a step that stays inside the pass only advances the progress by dt / duration and reports GetProgress of it |
| TweeningTween.Durations | src/tweening/tween.cpp:249-256 | the durations of the points, index by index |
| TweeningTween.Tween.constructor | src/tweening/tween.cpp:144-150 | a tween with no points, at progress 0 and index 0, neither started nor paused |
| TweeningTween.Tween.IsCompleted | src/tweening/tween.cpp:96-99 | completed exactly when there are points and the progress is full, on the last point or once no longer started |
| TweeningTween.Tween.IsRunning | src/tweening/tween.cpp:197-199 | running exactly when started and not paused |
| TweeningTween.Tween.GetNewProgress | src/tweening/tween.cpp:101-111 | a zero-length point (where the division gives infinity or NaN) gives 1, and otherwise the progress grows by time / duration |
| TweeningTween.Tween.GetProgress | src/tweening/tween.cpp:112-124 | the progress lies in [0, 1], is the stored progress without points or on a forward point, and 1 - progress on a reversed one |
| TweeningTween.Tween.During | src/tweening/tween.cpp:173-177 | a point of the given non-negative duration is appended |
| TweeningTween.Tween.Repeat | src/tweening/tween.cpp:213-222 | the last point's budget becomes -1 for Repeat(-1) and n + 1 for Repeat(n), and nothing else changes |
| TweeningTween.Tween.Reverse | src/tweening/tween.cpp:229-236 | on a started tween only the last point's current direction changes; otherwise its start direction as well |
| TweeningTween.Tween.Yoyo | src/tweening/tween.cpp:238-241 | the last point's yoyo flag becomes the given one |
| TweeningTween.Tween.Reset | src/tweening/tween.cpp:444-457 | index and progress return to 0, the tween is neither started nor paused, and every point is rewound |
| TweeningTween.Tween.Clear | src/tweening/tween.cpp:243-247 | no points remain and the tween is reset |
| TweeningTween.Tween.Pause | src/tweening/tween.cpp:424-432 | the tween is paused |
| TweeningTween.Tween.Resume | src/tweening/tween.cpp:434-442 | the tween is not paused |
| TweeningTween.Tween.Stop | src/tweening/tween.cpp:492-500 | the tween is not started |
| TweeningTween.Tween.Start | src/tweening/tween.cpp:459-469 | a running tween is left alone unless forced; otherwise it is reset and started |
| TweeningTween.Tween.Toggle | src/tweening/tween.cpp:483-490 | a started tween stops with its progress kept, and any other is reset and started |
| TweeningTween.Tween.PointCompleted | src/tweening/tween.cpp:349-365 | with no points nothing changes; before the last point the next one becomes current at progress 0 in its start direction; at the last point progress becomes 1, the tween stops and counts as completed; the new state is NextPoint of the old |
| TweeningTween.Tween.HandleCallbacks | src/tweening/tween.cpp:367-403 | a tween not running or below progress 1 is unchanged; a pass whose count reached the budget completes the point; any other restarts at progress 0, turned round when yoyo is set; the new state is Handled of the old |
| TweeningTween.Tween.UpdateImpl | src/tweening/tween.cpp:405-422 | the result lies in [0, 1] and is 1 for a finished tween and GetProgress otherwise; a finished pass moves to the next point or completes exactly when Completes allows it, and otherwise restarts at progress 0 with the count advanced and the direction turned iff yoyo is set; the new state is Updated of the old and the result UpdateResult of the new |
| TweeningTween.Tween.AccumulateProgress | src/tweening/tween.cpp:522-550 | a progress below 1 is returned unchanged; a tween not running returns its progress unchanged; otherwise one pass is finished per whole unit, returning 1 once the tween completes and the fractional part otherwise, in [0, 1]; the new state and the result are Accumulated of the old state and the progress |
| TweeningTween.Tween.RunPasses | src/tweening/tween.cpp:535-549 | the pass loop of AccumulateProgress: the new state and the result are AccLoop of the old state, the loop count and the progress; it ends with 1 on a completed tween or with the fractional progress, and the durations are kept |
| TweeningTween.Tween.EndPass | src/tweening/tween.cpp:536-547 | one turn of the pass loop: the progress is set to 1 and the tween updated (Updated), reporting whether it completed; the durations are kept |
| TweeningTween.Tween.SeekImpl | src/tweening/tween.cpp:510-520 | a tween not running or without points returns its progress unchanged; otherwise the progress is set and updated, and the result lies in [0, 1]; the new state and the result are Sought of the old state and the progress |
| TweeningTween.Tween.Step | src/tweening/tween.cpp:179-181 | StepImpl: a tween not running, without points or completed returns its progress unchanged; otherwise the new progress is accumulated and sought, and the result lies in [0, 1]; the new state and the result are Stepped of the old state and dt |
| TweeningTween.Tween.Seek | src/tweening/tween.cpp:183-188 | a tween not running or without points returns its progress unchanged; otherwise the given progress is accumulated and sought; the new state and the result are Seeked of the old state and the progress |
| TweeningTween.Tween.SeekTime | src/tweening/tween.cpp:190-195 | as Seek, with the progress GetNewProgress gives for the time; the new state and the result are Seeked of the old state and the progress GetNewProgress gives, or 0 without points |
| TweeningTween.Tween.IncrementTweenPoint | src/tweening/tween.cpp:471-481 | a completed tween is unchanged, and a tween at its last point completes; a tween not completed takes NextPoint of its state, and before the last point the next one becomes current at progress 0 in its start direction |
| TweeningTween.Tween.SetDuration | src/tweening/tween.cpp:258-269 | point i takes the new duration and every other duration is kept, then the tween is updated: the new state is Retimed of the old |
| TweeningTween.Retimed | src/tweening/tween.cpp:258-269 | SetDuration on a snapshot, which stays valid with the same number of points and pause flag |
| TweeningTween.RetimedMidPass | src/tweening/tween.cpp:258-269 | below full progress the update changes nothing, so SetDuration changes exactly that one duration |
| TweenHandles.NewPoint | src/utility/tween.cpp:92-97 | a new point has the given duration, repeat count 0 and forward direction, and completes after one pass |
| TweenHandles.ClearedRepeats | src/utility/tween.cpp:379-381 | every point keeps everything but its repeat count, which becomes 0 |
| TweenHandles.ProgressOf | src/utility/tween.cpp:56-64 | GetProgress on a snapshot lies in [0, 1] |
| TweenHandles.NextPoint | src/utility/tween.cpp:274-291 | PointCompleted on a snapshot keeps it valid, with the same points and pause flag |
| TweenHandles.Handled | src/utility/tween.cpp:293-331 | HandleCallbacks on a snapshot keeps it valid, with the same number of points, durations and pause flag |
| TweenHandles.CountedPoint | src/utility/tween.cpp:336-340 | at progress 1 the repeat count advances as CountPass says, below 1 the point is unchanged, and only the repeat count ever changes |
| TweenHandles.Updated | src/utility/tween.cpp:333-352 | UpdateImpl on a snapshot keeps it valid, with the same number of points, durations and pause flag |
| TweenHandles.AccLoop | src/utility/tween.cpp:450-465 | k turns of the pass loop, stopping once the instance is gone or done: the snapshot stays valid with its durations and the result lies in [0, 1] |
| TweenHandles.AccLoopUnfold | src/utility/tween.cpp:450-465 | one turn of the loop is Updated at progress 1, ending the loop when the instance is gone or done |
| TweenHandles.AccLoopEnds | src/utility/tween.cpp:450-465 | the loop ends with result 1 on a gone or done tween, or with the fractional progress on a tween still running |
| TweenHandles.Accumulated | src/utility/tween.cpp:436-466 | AccumulateProgress on a snapshot keeps it valid with its durations, and its result lies in [0, 1] |
| TweenHandles.AccLoopStays | src/utility/tween.cpp:436-466 | k passes that do not complete the point leave the fractional progress, the same point still running, and its repeat count advanced by CountPasses |
| TweenHandles.AccLoopCompletes | src/utility/tween.cpp:436-466 | on the last point, passes that reach its budget stop the tween with result 1, and it survives exactly when it is a manager tween or not destroyed on completion |
| TweenHandles.AccumulateForever | src/utility/tween.cpp:436-466 | a point that repeats forever keeps the fraction, stays current and keeps running, however large the progress |
| TweenHandles.AccumulateRepeat | src/utility/tween.cpp:147-156 | after Repeat(n) the last point is still running after n passes and stops the tween at pass n + 1 |
| TweenHandles.SoughtLands | src/utility/tween.cpp:417-434 | seeking a running tween to a progress below 1 sets exactly that progress and reports GetProgress of it |
| TweenHandles.StepWithinPass | src/utility/tween.cpp:409-415 | a step that stays inside the pass only advances the progress by dt / duration and reports GetProgress of it |
| TweenHandles.CompleteReversed | src/utility/tween.cpp:191-194 | Complete on a reversed point seeks progress 0, which reads as 1 |
| TweenHandles.CompleteLastPass | src/utility/tween.cpp:191-194 | Complete on the last pass of the last point leaves progress 1 and stops the tween, which survives exactly when it is a manager tween or not destroyed on completion |
| TweenHandles.CompleteMidPoint | src/utility/tween.cpp:191-194 | Complete on the last pass of an earlier point moves to the next point at progress 0, still running |
| TweenHandles.ListedAfterErase | src/utility/tween.cpp:524-537 | after the map erase, the keys listed in the old order are distinct and are exactly the keys left |
| TweenHandles.Tween.constructor | src/utility/tween.h:185 | a default handle refers to no instance |
| TweenHandles.Tween.OfDuration | src/utility/tween.cpp:88-97 | the new handle refers to a fresh instance holding one point of the duration, at progress 0 and index 0, neither started nor paused, destroyed on completion and not a manager tween |
| TweenHandles.Tween.IsValid | src/utility/tween.cpp:123-141 | a handle is valid exactly while it refers to an instance; each status query below first tests it |
| TweenHandles.Tween.IsCompleted | src/utility/tween.cpp:123-125 | only a valid handle with points at full progress is completed, and a started one only on its last point |
| TweenHandles.Tween.IsRunning | src/utility/tween.cpp:127-133 | running exactly when started and not paused, which needs a valid handle |
| TweenHandles.Tween.IsStarted | src/utility/tween.cpp:135-137 | started exactly when the handle is valid and its instance started |
| TweenHandles.Tween.IsPaused | src/utility/tween.cpp:139-141 | paused exactly when the handle is valid and its instance paused |
| TweenHandles.Tween.GetRepeats | src/utility/tween.cpp:143-145 | the current point's repeat count, never negative |
| TweenHandles.Tween.GetNewProgress | src/utility/tween.cpp:45-54 | a zero-length point gives 1, and otherwise the progress grows by time / duration |
| TweenHandles.Tween.GetProgress | src/utility/tween.cpp:56-64 | the progress lies in [0, 1], is the stored progress on a forward point and 1 - progress on a reversed one |
| TweenHandles.Tween.Create | src/utility/tween.cpp:94 | a handle with an instance keeps it unchanged; one without gets a fresh instance with no points at progress 0 |
| TweenHandles.Tween.Destroy | src/utility/tween.cpp:286-289 | the handle no longer refers to an instance |
| TweenHandles.Tween.During | src/utility/tween.cpp:92-97 | a point of the given duration is appended, to a fresh instance when the handle had none |
| TweenHandles.Tween.KeepAlive | src/utility/tween.cpp:116-121 | the instance exists, destroy-on-complete is the negation of keep-alive, and points and progress are kept |
| TweenHandles.Tween.Repeat | src/utility/tween.cpp:147-156 | only the last point changes: its budget becomes -1 for Repeat(-1) and n + 1 for Repeat(n) |
| TweenHandles.Tween.Reverse | src/utility/tween.cpp:165-168 | only the last point's direction changes, to the given one |
| TweenHandles.Tween.Yoyo | src/utility/tween.cpp:170-173 | only the last point's yoyo flag changes, to the given one |
| TweenHandles.Tween.Pause | src/utility/tween.cpp:354-362 | the tween is paused |
| TweenHandles.Tween.Resume | src/utility/tween.cpp:364-372 | the tween is not paused |
| TweenHandles.Tween.Stop | src/utility/tween.cpp:399-407 | the tween is not started |
| TweenHandles.Tween.Reset | src/utility/tween.cpp:374-387 | index and progress return to 0, the tween is neither started nor paused, and every repeat count is cleared |
| TweenHandles.Tween.Start | src/utility/tween.cpp:389-397 | the tween is reset and then running |
| TweenHandles.Tween.Clear | src/utility/tween.cpp:185-189 | no points remain and the tween is reset |
| TweenHandles.Tween.PointCompleted | src/utility/tween.cpp:274-291 | with no points nothing changes; before the last point the next becomes current at progress 0; at the last point progress becomes 1, the tween stops, and the instance survives exactly when it is managed or not destroyed on completion; the new state is NextPoint of the old |
| TweenHandles.Tween.HandleCallbacks | src/utility/tween.cpp:293-331 | a tween not running or below progress 1 is unchanged; a pass whose count reached its budget completes the point; any other restarts at progress 0, turned round exactly when yoyo is set; the new state is Handled of the old |
| TweenHandles.Tween.UpdateImpl | src/utility/tween.cpp:333-352 | the result lies in [0, 1], is 1 once the instance is gone and GetProgress otherwise; a stop leaves a destroyed or completed tween; a finished pass moves on or stops exactly when Completes allows it; the new state is Updated of the old and the result UpdateResult of the new |
| TweenHandles.Tween.AccumulateProgress | src/utility/tween.cpp:436-466 | a progress below 1 is returned unchanged; a tween not running returns its progress; otherwise the result is 1 for a completed or destroyed tween or the fractional part of the progress for a running one; the new state and the result are Accumulated of the old state and the progress |
| TweenHandles.Tween.RunPasses | src/utility/tween.cpp:450-465 | the pass loop of AccumulateProgress: the new state and the result are AccLoop of the old state, the loop count and the progress; the durations are kept |
| TweenHandles.Tween.EndPass | src/utility/tween.cpp:451-463 | one turn of the pass loop: the progress is set to 1 and the tween updated (Updated), reporting whether it is gone or completed |
| TweenHandles.Tween.SeekImpl | src/utility/tween.cpp:417-434 | the result lies in [0, 1], is 1 without an instance, and a tween not running is unchanged; the new state and the result are Sought of the old state and the progress |
| TweenHandles.Tween.Step | src/utility/tween.cpp:99-101 | StepImpl (409-415): the result lies in [0, 1], the durations are kept, and a tween not running is unchanged; the new state and the result are Stepped of the old state and dt |
| TweenHandles.Tween.Seek | src/utility/tween.cpp:103-105 | SeekImpl of AccumulateProgress (417-466): the result lies in [0, 1], is 1 once the instance is gone, the durations are kept, and a tween not running is unchanged; a progress of 1 or more needs an instance, because AccumulateProgress then calls Get(); the new state and the result are Seeked of the old state and the progress |
| TweenHandles.Tween.Complete | src/utility/tween.cpp:191-194 | the durations are kept and a tween not running is unchanged; the new state is Completed of the old |
| TweenHandles.Tween.SetDuration | src/utility/tween.cpp:196-208 | point i takes the new duration, every other duration is kept, and the tween is then updated: the new state is Retimed of the old |
| TweenHandles.Retimed | src/utility/tween.cpp:196-208 | SetDuration on a snapshot: point i has the new duration, the others keep theirs, and the snapshot stays valid with the same number of points |
| TweenHandles.RetimedMidPass | src/utility/tween.cpp:196-208 | below full progress the update changes nothing, so SetDuration changes exactly that one duration |
| TweenHandles.SteppedHandle | src/utility/tween.cpp:492-496 | the manager's step of one stored tween: a valid handle takes Stepped, an invalid one is left as it is, and the snapshot stays valid with its points |
| TweenHandles.SteppedTimes | src/utility/tween.cpp:511-522 | a tween stored n times is stepped n times in a frame; an invalid one is left as it is |
| TweenHandles.SharedStepsTwice | src/utility/tween.cpp:511-522 | a tween stored both in the vector and in the map advances by twice dt / duration in one manager step while it stays within its pass |
| TweenHandles.Unfinished | src/utility/tween.cpp:525-529 | the vector after the erase loop, over the tweens' stepped snapshots: never longer than the vector |
| TweenHandles.UnfinishedMembers | src/utility/tween.cpp:498-507 | a tween is kept exactly when it is in the vector and its stepped snapshot does not Drop |
| TweenHandles.UnfinishedDrops | src/utility/tween.cpp:498-507 | a tween in the vector whose stepped snapshot Drops makes the kept vector strictly shorter |
| TweenHandles.UnfinishedKeeps | src/utility/tween.cpp:498-507 | when no tween's snapshot Drops, the vector is kept as it is |
| TweenHandles.UnfinishedKeyed | src/utility/tween.cpp:532-536 | exactly the keys whose tweens do not Drop remain, each with its tween |
| TweenHandles.StepTween | src/utility/tween.cpp:492-496 | the tween's new state is SteppedHandle of its old state, so a handle without an instance or not running is unchanged, and the stepped set stays steppable |
| TweenHandles.ValuesInOrder | src/utility/tween.cpp:518-522 | the map's tweens listed in its iteration order, one per key |
| TweenHandles.Finished | src/utility/tween.cpp:498-507 | the erase test: a tween goes exactly when its handle is invalid or it is completed and destroyed on completion (Drops of its snapshot) |
| TweenHandles.Listed | src/utility/tween.cpp:524-537 | the keys of the iteration order that are in the map, without duplicates when the order has none |
| TweenHandles.KeptAfterErase | src/utility/tween.cpp:525-529 | the erase loop over the vector keeps exactly Unfinished of it, in order |
| TweenHandles.KeptKeyedAfterErase | src/utility/tween.cpp:532-536 | the erase loop over the map, in its iteration order, keeps exactly UnfinishedKeyed of it |
| TweenHandles.TweenManager.constructor | src/utility/tween.h:303 | a manager with no tweens in its vector or its map |
| TweenHandles.TweenManager.StepAll | src/utility/tween.cpp:511-522 | the copied vector and then the copied map are stepped: each managed tween's new state is SteppedTimes of its old one, stepped once per place it is stored, and the set stays steppable |
| TweenHandles.TweenManager.UpdateAsWritten | src/utility/tween.cpp:480-537 | the tweens are stepped as StepAll says, and the manager's own vector and map are unchanged, because the erase loops work on copies |
| TweenHandles.TweenManager.ErasedCopies | src/utility/tween.cpp:525-536 | the erase loops on the copies yield Unfinished of the vector and UnfinishedKeyed of the map |
| TweenHandles.TweenManager.Update | src/utility/tween.cpp:480-537 | the corrected update: the tweens are stepped as StepAll says, and then the vector and the map hold exactly those tweens whose stepped snapshot does not Drop |
| TweenHandles.TweenManager.EraseFinished | src/utility/tween.cpp:525-536 | the corrected erase on the manager's own containers: the vector and the map hold exactly Unfinished and UnfinishedKeyed of them, and no tween's state changes |
| TweeningEffects.AdvancedKeepsOrder | src/tweening/tween_effects.cpp:62-77 | dropping the completed front keeps the tasks chained and leaves exactly the new front's timer running |
| TweeningEffects.AppendedKeepsOrder | src/tweening/tween_effects.h:190-206 | queueing keeps the tasks chained with only the front running; with force or an empty queue the one task left starts from the current value, otherwise the old tasks stay in front; the last task heads for the target |
| TweeningEffects.TweenEffect.constructor | src/tweening/tween_effects.h:62-84 | a component not yet attached, with no tasks |
| TweeningEffects.TweenEffect.AddTweenEffect | src/tweening/tween_effects.h:181-207 | with force or an empty queue the queue becomes one running task from the current value; otherwise a waiting task from the last target is appended; the queue stays chained with only its front running |
| TweeningEffects.TweenEffect.UpdateTask | src/tweening/tween_effects.cpp:62-77 | an uncompleted front stays; a completed one is dropped and the next task's timer starts |
| TweeningEffects.TweenEffect.Update | src/tweening/tween_effects.cpp:79-92 | an empty queue detaches the component; otherwise the front, whose timer runs, is updated |
| TweeningEffects.UpdateSystemAsWritten | src/tweening/tween_effects.cpp:79-92 | the entities before the first empty queue are updated, that one detached, and every entity after it left unchanged |
| TweeningEffects.UpdateSystem | src/tweening/tween_effects.cpp:155-161 | every entity is updated: empty queues detach and the others step their front task |
| TweeningEffects.SkippedAfterEmptyAsWritten | src/tweening/tween_effects.cpp:81-84 | behind an entity with an empty queue, a completed task of the next entity is still in place after the pass |
| TweeningEffects.BounceStep | src/tweening/tween_effects.cpp:173-196 | the queue stays valid, and either keeps its length or, on a completed last period, drops the front and starts the next bounce |
| TweeningEffects.BounceRepeats | src/tweening/tween_effects.cpp:179-184 | a bounce forever, or one with periods left, stays at the front with every completed period counted |
| TweeningEffects.BounceEnds | src/tweening/tween_effects.cpp:179-196 | a bounce of n periods leaves the queue after exactly the periods it has left, and not one period earlier |
| TweeningEffects.SymmetricalTriangle | src/tweening/tween_effects.cpp:217-227 | the wave lies in [0, 1], starts and ends at 0.5, peaks at 1 at t = 0.25 and bottoms at 0 at t = 0.75 |
| TweeningEffects.SymmetricalFactor | src/tweening/tween_effects.cpp:229-231 | the factor lies in [-1, 1] and is 0 at both ends of the period, so the bounce starts and ends at its origin |
| TweeningEffects.BounceEffect.constructor | src/tweening/tween_effects.h:110-114 | a component not yet attached, with no bounces |
| TweeningEffects.BounceEffect.BounceImpl | src/tweening/tween_effects.cpp:306-326 | with force or an empty queue the queue becomes one running bounce; otherwise a waiting one is appended; only total periods -1 or > 0 are accepted |
| TweeningEffects.BounceEffect.Update | src/tweening/tween_effects.cpp:155-197 | an empty queue detaches the component; otherwise the queue takes one BounceStep |
| TweeningEffects.BounceEffect.StopBounce | src/tweening/tween_effects.cpp:386-403 | without the component nothing changes; with force the queue is cleared; otherwise the front is dropped and the next bounce starts |
| TweeningEffects.ShakeTrauma | src/tweening/tween_effects.cpp:244-257 | the trauma lies in [0, 1]: the reported intensity while the shake runs, decayed and never larger once it is over |
| TweeningEffects.ShakeStep | src/tweening/tween_effects.cpp:234-303 | the pass keeping a sole finished task only while trauma is left, and the queue stays valid |
| TweeningEffects.SoleShakeStaysAsWritten | src/tweening/tween_effects.cpp:286-290 | as written a sole shake is never dropped whatever its trauma |
| TweeningEffects.SoleShakeEnds | src/tweening/tween_effects.cpp:286-299 | a finished sole shake is dropped exactly when its decayed trauma reaches 0 |
| TweeningEffects.FinishedShakeMakesWay | src/tweening/tween_effects.cpp:292-302 | a finished shake with another queued behind it is dropped and the next one starts |
| TweeningEffects.ShakeEffect.constructor | src/tweening/tween_effects.h:137-141 | a component not yet attached, with no shakes |
| TweeningEffects.ShakeEffect.Shake | src/tweening/tween_effects.cpp:405-440 | the new task runs from the last target (0 for a first task) to that plus the intensity clamped to [0, 1], with that start as its trauma; force or an empty queue replaces the queue |
| TweeningEffects.ShakeEffect.ShakeInstant | src/tweening/tween_effects.cpp:442-482 | onto a queued 0-duration task the intensity is added to its trauma, clamped to [0, 1], and nothing is queued; otherwise a 0-duration task is queued with the intensity as trauma |
| TweeningEffects.ShakeEffect.Update | src/tweening/tween_effects.cpp:234-303 | an empty queue detaches the component; otherwise the queue takes one ShakeStep, the corrected pass that keeps a sole finished task only while trauma > 0 (the `>= 0` test as written at 286-290 is ShakeStepAsWritten, exhibited by SoleShakeStaysAsWritten) |
| TweeningEffects.ShakeEffect.StopShake | src/tweening/tween_effects.cpp:484-501 | without the component nothing changes; with force the queue is cleared; otherwise the front is dropped and the next shake starts |
| TweensEffects.FollowMovement | src/tweens/tween_effects.cpp:738-743 | a velocity follow's movement takes the configured acceleration (for deceleration too) and speed, with keys and orthogonal-only movement off |
| TweensEffects.NextWaypoint | src/tweens/tween_effects.cpp:401-408 | the waypoint after a reached one stays in range: the next, the first again on a looping path, or none when the path is done |
| TweensEffects.LoopingPathNeverEnds | src/tweens/tween_effects.cpp:404-405 | a looping path always has a next waypoint |
| TweensEffects.FollowEntity.constructor | src/tweens/tween_effects.cpp:335-336 | an entity at the given position without a follow component or movement |
| TweensEffects.FollowEntity.StartFront | src/tweens/tween_effects.cpp:357-375 | the entity teleports onto the new front's target when configured, and has the front's velocity movement or none |
| TweensEffects.FollowEntity.StartFollow | src/tweens/tween_effects.cpp:718-747 | force or an empty queue replaces the queue, the task is always appended, the entity teleports when configured, and velocity mode sets up its movement |
| TweensEffects.FollowEntity.StopFollow | src/tweens/tween_effects.cpp:749-780 | without the component nothing changes; with force the queue is cleared; otherwise the front is dropped and the next task started |
| TweensEffects.FollowEntity.PopAndStart | src/tweens/tween_effects.cpp:355-376 | the front is dropped; the new front, if any, teleports the entity onto its target when configured, sets up its velocity movement in velocity mode and removes the movement in lerp mode (Restarted without arrival); with no task left the position and movement stay |
| TweensEffects.FollowEntity.PopAfterArrival | src/tweens/tween_effects.cpp:444-454 | the front is dropped; the new front teleports when configured, keeps the old movement when it moves by velocity and loses it in lerp mode (Restarted with arrival) |
| TweensEffects.FollowEntity.Update | src/tweens/tween_effects.cpp:338-536 | an empty queue detaches the follow and its movement; a task following neither axis leaves everything unchanged; a dead target drops the front and restarts the next; otherwise TurnAsWritten decides: a pop drops the front and restarts the next task from the moved position (keeping the movement when a velocity task arrives), and a kept task is replaced by the turned task with the entity at the moved position (Moved: the lerp step unless the path ended first) |
| TweensEffects.FollowEntity.UpdateIntended | src/tweens/tween_effects.cpp:338-536 | the corrected Update: every case as in Update, with TurnIntended deciding, so on a path only reaching its last waypoint drops the task |
| TweensEffects.Moved | src/tweens/tween_effects.cpp:474-509 | where the turn leaves the entity before any pop: a lerp follow takes its lerp step unless its path ended first, and otherwise the position stays (a velocity follow is moved by its movement component) |
| TweensEffects.Restarted | src/tweens/tween_effects.cpp:355-376 | starting the next task: a teleporting task moves the entity onto its target; a velocity task has its movement (the old one after an arrival) and a lerp task none; with no task the position and movement stay |
| TweensEffects.TurnAsWritten | src/tweens/tween_effects.cpp:397-509 | a kept task has the same target and configuration and a waypoint in range |
| TweensEffects.TurnIntended | src/tweens/tween_effects.cpp:397-509 | a kept task has the same target and configuration and a waypoint in range |
| TweensEffects.PathEndsAtReachedWaypoint | src/tweens/tween_effects.cpp:397-509 | as written, a path task with a stop distance is dropped at the first waypoint it comes within the stop distance of, whenever a lerp step does not move away from it |
| TweensEffects.PathEndsEarlyExample | src/tweens/tween_effects.cpp:397-443 | two waypoints, the entity half a unit from the first, stop distance 1: the second waypoint is next, yet the task is dropped |
| TweensEffects.IntendedPathAdvances | src/tweens/tween_effects.cpp:397-425 | as intended, a path task is dropped exactly when its last waypoint is reached on a path that does not loop; a reached earlier waypoint advances the index, and an unreached one keeps the task |
| TweensEffects.TargetFollowUnchanged | src/tweens/tween_effects.cpp:433-509 | both turns agree on target following, which ends exactly when the stop distance is set and the (lerped) distance is below it |
| TweensEffects.ShakenEntity.constructor | src/tweens/tween_effects.cpp:694-716 | an entity with a detached shake component and a clean view |
| TweensEffects.ShakenEntity.StopShake | src/tweens/tween_effects.cpp:694-716 | the shake queue stops as in the tweening generation, and a camera's view is marked dirty exactly when the component is attached |
| Dialogues.ClampIndex | engine/src/ui/dialogue.cpp:500-515 | the loaded index is kept when in range, clamped to the last line otherwise, and 0 without lines |
| Dialogues.SequentialNextUnused | engine/src/ui/dialogue.cpp:187-198 | in order, index mod the line count is never a used line while a line is unused |
| Dialogues.SomeLineUnused | engine/src/ui/dialogue.cpp:150-161 | while fewer lines are used than exist, some line is unused, so the random pick ends |
| Dialogues.FullCycleUsesEveryLine | engine/src/ui/dialogue.cpp:172-199 | once as many lines are used as exist, every line has been used in the cycle |
| Dialogues.SequentialPickValid | engine/src/ui/dialogue.cpp:187-199 | the in-order pick keeps the used list distinct and equal to the lines before index |
| Dialogues.RandomPickValid | engine/src/ui/dialogue.cpp:191-199 | a random pick of an unused line keeps the used list distinct, with index its last entry |
| Dialogues.IndicesFit | engine/src/ui/dialogue.cpp:150-161 | the random draws Open and ShowNextLine assume exist for every dialogue: the line indices in order name only its lines and name each of them |
| Dialogues.Dialogue.constructor | engine/src/ui/dialogue.cpp:500-515 | a dialogue with no used lines and its index clamped |
| Dialogues.Dialogue.PickRandomIndex | engine/src/ui/dialogue.cpp:150-161 | the only line when there is one, otherwise the first unused draw; never a used line |
| Dialogues.Dialogue.GetNewDialogueLine | engine/src/ui/dialogue.cpp:172-204 | -1 without lines or when a non-repeatable dialogue is spent; a spent repeatable dialogue restarts its cycle, keeping the current line in random mode; the chosen unused line is appended; -1 exactly when the dialogue was spent or the picked line has no pages, and otherwise the picked line |
| Dialogues.Dialogue.PickLine | engine/src/ui/dialogue.cpp:186-199 | in order the line at index mod the count with index advanced, at random the drawn line as the new index; either is unused and appended |
| Dialogues.Dialogue.CurrentLineIndexAsWritten | engine/src/ui/dialogue.cpp:163-170 | the line at index mod the line count |
| Dialogues.Dialogue.CurrentLineIndex | engine/src/ui/dialogue.cpp:163-170 | the line last picked, which is a used line |
| Dialogues.Dialogue.GetCurrentDialogueLine | engine/src/ui/dialogue.cpp:163-170 | the line last picked |
| Dialogues.SequentialCurrentLineAsWritten | engine/src/ui/dialogue.cpp:163-170 | in order and mid-cycle, the line the lookup selects is never used, so its assertion fails |
| Dialogues.DropLeadingEmpty | engine/src/ui/dialogue.cpp:521-530 | the lines from the first non-empty one |
| Dialogues.JoinTail | engine/src/ui/dialogue.cpp:521-530 | appending a line appends a separator and the line |
| Dialogues.JoinLines | engine/src/ui/dialogue.cpp:521-530 | the joined lines with "\n" between them and none at the end, leading empty lines leaving no trace |
| Dialogues.FindNewline | engine/src/ui/dialogue.cpp:648-656 | the first newline at or after the start, or none |
| Dialogues.Split | engine/src/ui/dialogue.cpp:648-656 | at least one segment |
| Dialogues.SplitHasNoNewline | engine/src/ui/dialogue.cpp:648-656 | no segment contains a newline |
| Dialogues.SplitAtIsSplit | engine/src/ui/dialogue.cpp:648-656 | the segments the loop finds from a position on are the newline split of the rest of the text |
| Dialogues.JoinSplit | engine/src/ui/dialogue.cpp:648-656 | joining the segments with newlines gives the text back |
| Dialogues.SplitJoin | engine/src/ui/dialogue.cpp:521-530 | splitting lines without newlines after joining them gives the lines back |
| Dialogues.SplitNewlines | engine/src/ui/dialogue.cpp:648-656 | the segments between manual newlines |
| Dialogues.DialogueComponent.constructor | engine/src/ui/dialogue.cpp:206-223 | from dialogues that keep their bookkeeping and name existing next dialogues, a valid component with the loaded dialogues, closed, at the first line and page |
| Dialogues.DialogueComponent.GetCurrentDialogue | engine/src/ui/dialogue.cpp:320-329 | the named dialogue when the name is set and loaded, else none |
| Dialogues.DialogueComponent.GetCurrentDialogueLine | engine/src/ui/dialogue.cpp:331-340 | the current line when the line index is within the dialogue, else none |
| Dialogues.DialogueComponent.GetCurrentDialoguePage | engine/src/ui/dialogue.cpp:342-351 | the current page when the page index is within the line, else none |
| Dialogues.DialogueComponent.Close | engine/src/ui/dialogue.cpp:265-274 | hidden, not scrolling, not waiting, at line and page 0 |
| Dialogues.DialogueComponent.StartDialogueLine | engine/src/ui/dialogue.cpp:377-387 | the given line from its first page, scrolling for that page's duration and waiting for the key |
| Dialogues.DialogueComponent.Open | engine/src/ui/dialogue.cpp:237-263 | an open dialogue of the same name, or an empty name while open, changes nothing; otherwise the named dialogue becomes current and, when it yields a line, that line is shown from its first page; a line is shown exactly when neither early return applies, the target dialogue is named and loaded, was not spent, and its new pick has a page |
| Dialogues.DialogueComponent.ShowNextLine | engine/src/ui/dialogue.cpp:247-262 | the tail of Open: a new line of the current dialogue is shown from its first page, scrolling and waiting, and is the dialogue's last used line; otherwise open, line and page are unchanged; shown exactly when the current dialogue exists, was not spent and its new pick has a page |
| Dialogues.DialogueComponent.PickNewLine | engine/src/ui/dialogue.cpp:250-256 | GetNewDialogueLine on the current dialogue: -1 exactly when there is no current dialogue, it was spent (then its used lines are kept), or its new pick has no page; otherwise a line with a page, now the last one used; the component itself is unchanged |
| Dialogues.DialogueComponent.NextPage | engine/src/ui/dialogue.cpp:280-291 | the next page scrolls when it exists, otherwise the dialogue closes |
| Dialogues.DialogueComponent.GetCurrentDialoguePageAt | engine/src/ui/dialogue.cpp:342-351 | the page at the given index of the current line, else none |
| Dialogues.DialogueComponent.OnContinue | engine/src/ui/dialogue.cpp:61-74 | only a pressed key while the wait script is attached does anything: a scroll in progress finishes with the page kept, and otherwise the page turns (NextPage), scrolling the next page of the line or closing the dialogue, which detaches the wait script |
| Dialogues.DialogueComponent.UpdateScroll | engine/src/ui/dialogue.cpp:287-290 | the scroll tween started for a page keeps running exactly while it ran and the time since the page started is below its scroll duration; a finished or cleared scroll stays stopped |
| Dialogues.DialogueComponent.SetNextDialogue | engine/src/ui/dialogue.cpp:293-307 | the next dialogue named by the current one becomes current, resetting line and page when there is none |
| Dialogues.DialogueComponent.SetDialogue | engine/src/ui/dialogue.cpp:309-314 | the named dialogue from line and page 0 |
| Scripting.ScriptTypes | engine/old_src/core/scripting/script.h:108-121 | the base type first, then the script's interfaces, and nothing else |
| Scripting.WithoutMembers | engine/old_src/core/scripting/script.h:248-256 | exactly the scripts of other types remain |
| Scripting.WithoutRemovesExactly | engine/old_src/core/scripting/script.h:248-256 | no script of the removed type is left, and every other script is kept |
| Scripting.WithoutConcat | engine/old_src/core/scripting/script.h:248-256 | removal distributes over concatenation, so the remaining scripts keep their order |
| Scripting.WithoutIdempotent | engine/old_src/core/scripting/script.h:248-256 | removing a type twice is removing it once |
| Scripting.HandlersMembers | engine/old_src/core/scripting/script.h:212-225 | the scripts invoked are exactly those implementing the interface |
| Scripting.AdmittedMembers | engine/old_src/core/scripting/script.h:193-208 | an action is queued exactly when it was posted and some script implements its interface |
| Scripting.MaxRank | engine/old_src/core/scripting/script.h:176-185 | no queued action ranks above it |
| Scripting.InvokeEffectRank | engine/old_src/core/scripting/script.h:212-225 | what an invocation queues ranks below the invoked action |
| Scripting.RoundLowersRank | engine/old_src/core/scripting/script.h:176-185 | everything a round queues ranks below the round's highest action |
| Scripting.RoundAdmitsOnlyListened | engine/old_src/core/scripting/script.h:176-208 | every action a round queues is listened to by some script |
| Scripting.InvokeEffectListened | engine/old_src/core/scripting/script.h:193-225 | every action an invocation queues is listened to by some script |
| Scripting.MaxRankAttained | engine/old_src/core/scripting/script.h:176-185 | the highest rank is the rank of some queued action |
| Scripting.NothingToRemove | engine/old_src/core/scripting/script.h:424-436 | without a script of the type, removal changes nothing |
| Scripting.Scripts.constructor | engine/old_src/core/scripting/script.h:336-339 | no scripts and no actions |
| Scripting.Scripts.ClearActions | engine/old_src/core/scripting/script.h:187-189 | the action queue is empty |
| Scripting.Scripts.AddAction | engine/old_src/core/scripting/script.h:193-208 | the action is queued iff some script implements its interface, else nothing changes |
| Scripting.Scripts.AddActions | engine/old_src/core/scripting/script.h:193-208 | the posted actions some script listens to are queued in order |
| Scripting.Scripts.Invoke | engine/old_src/core/scripting/script.h:212-225 | the implementing scripts of a snapshot are called in order, and their posted actions queued |
| Scripting.Scripts.InvokeRound | engine/old_src/core/scripting/script.h:176-185 | the queue is taken and replaced by what its actions post, in order |
| Scripting.Scripts.InvokeActions | engine/old_src/core/scripting/script.h:176-185 | rounds repeat until the queue is empty, which it is on return |
| Scripting.Scripts.AddScript | engine/old_src/core/scripting/script.h:227-237 | the script is appended |
| Scripting.Scripts.HasScript | engine/old_src/core/scripting/script.h:239-246 | true iff some script has the type's hash |
| Scripting.Scripts.RemoveScripts | engine/old_src/core/scripting/script.h:248-256 | every script of the type is removed, the rest kept in order |
| Scripting.Scripts.ConditionCheck | engine/old_src/core/scripting/script.h:312-334 | true iff every script implementing the interface answers true |
| Scripting.ScriptedEntity.constructor | engine/old_src/core/scripting/script.h:378-389 | an entity without a Scripts component |
| Scripting.ScriptedEntity.HasScript | engine/old_src/core/scripting/script.h:414-417 | true iff the entity has the component and a script of the type |
| Scripting.ScriptedEntity.AddScript | engine/old_src/core/scripting/script.h:378-389 | the component exists and the script is appended |
| Scripting.ScriptedEntity.TryAddScript | engine/old_src/core/scripting/script.h:391-406 | nothing changes when a script of the type exists, otherwise it is appended; a script of the type is there afterwards |
| Scripting.ScriptedEntity.RemoveScripts | engine/old_src/core/scripting/script.h:424-436 | the scripts of the type are gone, the rest kept in order |
| Scripting.ScriptRegistry.constructor | engine/old_src/core/scripting/script.h:30-49 | no factories |
| Scripting.ScriptRegistry.Register | engine/old_src/core/scripting/script.h:38-40 | the factory for the hash is set, replacing any earlier one |
| Scripting.ScriptRegistry.Create | engine/old_src/core/scripting/script.h:42-45 | a script from the registered factory, none for an unknown type |
| Scripting.RegisterThenCreate | engine/old_src/core/scripting/script.h:38-45 | a registration is found afterwards and leaves every other type alone |
| Resources.Loaded | src/resources/resource_manager.h:126-135 | the key is loaded afterwards; an existing item is kept, a new key gets the new item, and no other entry changes |
| Resources.Unloaded | src/resources/resource_manager.h:141-144 | the key is not loaded afterwards and no other entry changes |
| Resources.LoadIdempotent | src/resources/resource_manager.h:126-135 | a second Load under the same key changes nothing and the first item stays |
| Resources.UnloadMissing | src/resources/resource_manager.h:141-144 | unloading a key that is not loaded changes nothing |
| Resources.UnloadUndoesLoad | src/resources/resource_manager.h:126-144 | loading a new key and unloading it gives the map back |
| Resources.SharedInternalKey | src/resources/resource_manager.h:255-266 | keys with the same internal key share one entry |
| Resources.MapManager.constructor | src/resources/resource_manager.h:113-118 | an empty manager with its internal-key translation |
| Resources.MapManager.Load | src/resources/resource_manager.h:126-135 | the map after try_emplace, the stored item returned, the key loaded |
| Resources.MapManager.Unload | src/resources/resource_manager.h:141-144 | the entry erased and the key no longer loaded |
| Resources.MapManager.Has | src/resources/resource_manager.h:151-154 | true iff the key's internal key is in the map |
| Resources.MapManager.Get | src/resources/resource_manager.h:161-176 | the key's item, for a key that must be loaded |
| Resources.MapManager.Clear | src/resources/resource_manager.h:181-204 | the manager is empty and its size 0 |
| Resources.MapManager.Size | src/resources/resource_manager.h:188-190 | the number of loaded keys |
| Resources.MapManager.IsEmpty | src/resources/resource_manager.h:195-197 | true iff nothing is loaded |
| Resources.ActiveMapManager.constructor | src/resources/resource_manager.h:288-300 | an empty manager whose active key is 0 |
| Resources.ActiveMapManager.WithActive | src/resources/resource_manager.h:304-309 | the item is loaded and active, and GetActive returns it |
| Resources.ActiveMapManager.HasActive | src/resources/resource_manager.h:312-315 | the precondition GetActive asserts: an item is loaded under the active key |
| Resources.ActiveMapManager.GetActive | src/resources/resource_manager.h:311-320 | the active item, which must be loaded |
| Resources.ActiveMapManager.SetActive | src/resources/resource_manager.h:322-333 | a loaded key becomes active and GetActive returns its item |
| Resources.MapManagerWithNameless.constructor | src/resources/resource_manager.h:342-356 | no keyed and no nameless items |
| Resources.MapManagerWithNameless.LoadNameless | src/resources/resource_manager.h:358-365 | the item is always appended and the size grows by one |
| Resources.MapManagerWithNameless.Clear | src/resources/resource_manager.h:367-373 | both the nameless items and the map are empty, the size 0 |
| Resources.MapManagerWithNameless.Size | src/resources/resource_manager.h:375-380 | the keyed items plus the nameless ones; 0 exactly when empty |
| Resources.MapManagerWithNameless.IsEmpty | src/resources/resource_manager.h:382-387 | true iff neither keyed nor nameless items exist |
| RenderEngine.Survivor | engine/src/renderer/render_data.cpp:279-284 | a context that is kept keeps its keep-alive flag; one not kept alive is released, one kept alive is untouched |
| RenderEngine.TrimmedSpec | engine/src/renderer/render_data.cpp:274-287 | after a trim every context is released or kept alive, no kept-alive context is erased, and the survivors are exactly the released forms of the contexts that had not expired |
| RenderEngine.FirstSpare | engine/src/renderer/render_data.cpp:299-304 | the first context that is not in use and has the requested format, or none when there is no such context |
| RenderEngine.DrawContextPool.constructor | engine/src/renderer/render_data.cpp:272 | an empty pool with its maximum age |
| RenderEngine.DrawContextPool.TrimExpired | engine/src/renderer/render_data.cpp:274-287 | the contexts become the trimmed list, so unused, unshared, old contexts that are not kept alive are erased and the others not kept alive are released |
| RenderEngine.DrawContextPool.Get | engine/src/renderer/render_data.cpp:289-318 | the returned context is in use, has the format, the size clamped to 4096x2160 and a restarted timer; it is the first spare context of the format with every other context unchanged, or else a new context appended to the pool |
| RenderEngine.Shifted | engine/src/renderer/render_data.cpp:987-990 | each point index plus the offset, in 32-bit arithmetic |
| RenderEngine.ShiftedInRange | engine/src/renderer/render_data.cpp:977-994 | indices that name a point's own vertices name those vertices once shifted past the vertices already batched |
| RenderEngine.ShiftIndices | engine/src/renderer/render_data.cpp:987-990 | the loop yields each point index shifted by the offset |
| RenderEngine.InRangeAfterAppend | engine/src/renderer/render_data.cpp:977-994 | appending shifted indices keeps every index of the batch naming one of its vertices, while the batch stays within 32-bit indices |
| RenderEngine.LineSegments | engine/src/renderer/render_data.cpp:607-631 | the segments of a polyline join each point to the next, and the last to the first when it is closed |
| RenderEngine.OpenLinesAsWritten | engine/src/renderer/render_data.cpp:612-630 | three open points draw (0,1), (1,0), (2,1) as written instead of (0,1), (1,2) |
| RenderEngine.ClosedLinesAsWritten | engine/src/renderer/render_data.cpp:612-630 | for a closed line of three or more points the written segments are the right ones |
| RenderEngine.TextureLookup | engine/src/renderer/render_data.cpp:686-693 | the first position of the texture in the batch's list, or none exactly when it is absent |
| RenderEngine.WithTextureIndex | engine/src/renderer/render_data.cpp:704 | every vertex of the quad carries the texture index and is otherwise unchanged |
| RenderEngine.StaleTextureIndexAsWritten | engine/src/renderer/render_data.cpp:682-712 | as written, a capacity flush in AddVertices after the index is chosen leaves vertices naming slot 2 of a one-texture batch, or slot 1 of a batch with no texture |
| RenderEngine.RenderData.constructor | engine/src/renderer/render_data.h:363-398 | an empty batch at offset 0, no forced flush, the default render state and no queued commands |
| RenderEngine.RenderData.Submit | engine/src/renderer/render_data.cpp:596-605 | a command goes to the debug queue or to the end of the current target's queue, and the other queue is unchanged |
| RenderEngine.RenderData.Reset | engine/src/renderer/render_data.cpp:1134-1142 | the vertices, indices and textures are empty, the offset 0, no flush forced, and the pool is trimmed |
| RenderEngine.RenderData.Flush | engine/src/renderer/render_data.cpp:1046-1132 | the batch is drawn (FlushedBatch) only when the render state is set (1053, 1115-1125) and then reset (1127); a final flush also restores the default state (1129-1131); the vertex stream (the drawn batches' vertices, then the current batch's drawable ones) is unchanged |
| RenderEngine.Drawable | engine/src/renderer/render_data.cpp:1115-1125 | the current batch's vertices that a flush will draw: all of them in a set state, none in a reset one |
| RenderEngine.FlushedBatch | engine/src/renderer/render_data.cpp:1115-1125 | a flush makes exactly one draw call, of the batch with its state, when the state is set, and none otherwise |
| RenderEngine.RenderData.SetState | engine/src/renderer/render_data.cpp:936-943 | it flushes and switches iff the state differs or a flush is forced, returns exactly that, and otherwise changes nothing; the vertex stream is unchanged |
| RenderEngine.RenderData.AddVertices | engine/src/renderer/render_data.cpp:977-994 | it flushes first exactly when a buffer would overflow, appends the vertices and the indices shifted by the offset, keeps the offset equal to the vertex count in 32 bits, and keeps every index naming a vertex of the batch; the vertex stream grows by exactly the point's vertices |
| RenderEngine.RenderData.AppendPoint | engine/src/renderer/render_data.cpp:985-993 | the vertices are appended, the indices are appended shifted by the old offset, the offset stays the vertex count in 32 bits, and indices in range before stay in range |
| RenderEngine.RenderData.DrawLines | engine/src/renderer/render_data.cpp:607-631 | line width at least 1 and at least 3 points closed or 2 open; it switches to the command's state and draws exactly the polyline's segments (corrected), and the vertex stream grows by one line quad per segment, in segment order |
| RenderEngine.RenderData.AddQuadVertices | engine/src/renderer/render_data.cpp:968-975 | the batch ends with the quad's vertices and with its indices shifted to those vertices, and the vertex stream grows by exactly the quad |
| RenderEngine.RenderData.AddSegmentQuad | engine/src/renderer/render_data.cpp:968-975 | the vertex stream grows by exactly the quad, in the same render state |
| RenderEngine.DrawnVerticesAppend | engine/src/renderer/render_data.cpp:1046-1132 | flushing one more batch puts its vertices after those of the batches flushed before |
| RenderEngine.QuadVerticesStep | engine/src/renderer/render_data.cpp:962-974 | one more segment puts its quad after the quads of the earlier segments |
| RenderEngine.RenderData.AddLines | engine/src/renderer/render_data.cpp:956-975 | one quad for each segment from point i to point (i+1) mod count, and the vertex stream grows by those quads in that order |
| RenderEngine.RenderData.AddSegmentQuads | engine/src/renderer/render_data.cpp:956-975 | the loop of both line draws: the vertex stream grows by one line quad per segment, in segment order, in the same render state |
| RenderEngine.RenderData.AddSegment | engine/src/renderer/render_data.cpp:956-975 | one turn of that loop: the segment's quad follows the quads of the segments before it |
| RenderEngine.NextPoint | engine/src/renderer/render_data.cpp:956-975 | the point after i, counting round a closed line, is i + 1 or, after the last, the first |
| RenderEngine.RenderData.DrawTexture | engine/src/renderer/render_data.cpp:634-715 | a quad without area draws nothing; otherwise the state is the command's, the vertices carry the slot of the texture in the batch, and a texture already batched adds no texture and no draw call when nothing flushes (corrected) |
| RenderEngine.RenderData.AddTexturedQuad | engine/src/renderer/render_data.cpp:682-712 | once the quad fits, its vertices carry the slot of the texture, which is in the batch afterwards, and a texture already batched changes no texture list |
| RenderEngine.RenderData.PickTextureSlot | engine/src/renderer/render_data.cpp:682-698 | the slot of a texture already batched, with nothing changed, or the next free slot, flushing when the slots are full |
| RenderEngine.TruncDiv | engine/src/renderer/render_data.cpp:1321 | C++ integer division: Euclidean division for non-negative operands, and the quotient rounds toward zero |
| RenderEngine.IntegerScaleFactor | engine/src/renderer/render_data.cpp:1316-1319 | the integer scale is at least 1 |
| RenderEngine.IntegerScaleFits | engine/src/renderer/render_data.cpp:1316-1323 | a game no larger than the window fits it at the integer scale, and one step larger it would not fit along some axis |
| RenderEngine.Centered | engine/src/renderer/render_data.cpp:1320-1330 | the viewport has the size and the truncated centred position, and lies inside the window when the size does |
| RenderEngine.ComputeViewport | engine/src/renderer/render_data.cpp:1286-1337 | Stretch fills the window, Disabled keeps the game size, IntegerScale scales it by the integer scale, and both centre it; a game that fits the window gets a viewport inside it |
| RenderEngine.Display.constructor | engine/src/renderer/render_data.h:377-381 | game size 1x1, Letterbox, a 1x1 viewport at the origin and no change flags |
| RenderEngine.Display.ApplyViewport | engine/src/renderer/render_data.cpp:1339-1344 | the viewport becomes the computed one, and the display size is marked changed only when it differs |
| RenderEngine.Display.RecomputeDisplaySize | engine/src/renderer/render_data.cpp:1281-1345 | a game size that is not positive becomes the window size and is marked changed; the viewport is the computed one |
| RenderEngine.Display.UpdateResolutions | engine/src/renderer/render_data.cpp:1347-1357 | nothing changes when the game size and the mode are unchanged; otherwise both are adopted, the game size change is recorded and the viewport recomputed |
| Batching.NewBatch | src/renderer/batch.cpp:46 | a new batch holds no shapes and no textures, with room for max_texture_slots - 1 textures |
| Batching.Pushed | src/renderer/batch.cpp:98-101 | Get of a shape that is not a quad adds one to its kind only, within the capacity |
| Batching.PushedQuad | src/renderer/batch.cpp:98-101 | Get of a quad appends one quad with its texture index and changes nothing else |
| Batching.Cleared | src/renderer/batch.cpp:241-248 | Clear empties the data of every kind and the textures, keeping the texture capacity |
| Batching.Flushed | src/renderer/batch.cpp:214-227 | a flush of one kind empties that kind only, and the bound textures stay |
| Batching.TextureSlotOf | src/renderer/batch.cpp:170-187 | an existing texture gets its position plus one with nothing changed; a new texture gets index 0 and no slot exactly when the slots are full; otherwise it is appended and gets the new size |
| Batching.TextureSlotValid | src/renderer/batch.cpp:170-200 | adding a texture keeps the batch within its slot capacity, with distinct textures |
| Batching.GetTextureIndex | src/renderer/batch.cpp:170-187 | the loop returns exactly the slot that TextureSlotOf describes |
| Batching.QuadIndexNamesOwnQuad | src/renderer/batch.cpp:258-277 | each quad index names one of its own quad's four vertices, and the quad buffer of a full batch stays below 4 x 2000 vertices |
| Batching.QuadIndices | src/renderer/batch.cpp:258-276 | the generator with its offset and pattern position yields index k = 4(k/6) + pattern[k mod 6] |
| Batching.IotaIndices | src/renderer/batch.cpp:270-279 | the iota generator yields index k = k |
| Batching.FlipInvolution | src/renderer/batch.cpp:572-591 | every flip undoes itself, None is the identity, and Both is the two swaps in either order |
| Batching.FlipTextureCoordinates | src/renderer/batch.cpp:572-591 | the array becomes the flipped coordinates of its old contents |
| Batching.ZIndexKey | src/renderer/batch.cpp:529 | the z-index key truncates the float toward zero |
| Batching.FirstTextureBatch | src/renderer/batch.cpp:553-563 | the first batch with quad room that binds the texture or has a free slot, or none when no batch qualifies |
| Batching.WithGroup | src/renderer/batch.cpp:445-451 | setting one group of one layer: the group holds the new batches, the layer exists, and every other group and layer is what it was |
| Batching.GroupAt | src/renderer/batch.cpp:518-539 | the group of a layer and key as GetBatchGroup finds it, or one new batch; non-empty, with every batch valid |
| Batching.ShapeGroup | src/renderer/batch.cpp:541-547 | the last batch when it has room for the kind, else one new batch appended and chosen; the chosen batch is the last and has room |
| Batching.QuadGroup | src/renderer/batch.cpp:465-482 | the batch and index of a quad on one group: the chosen batch has quad room, the white texture gets 0, any other texture the slot that holds it, and every other existing batch stays |
| Batching.RendererData.constructor | src/renderer/batch.cpp:250-286 | no render layers, with the texture slot count and the white texture |
| Batching.RendererData.GetRenderLayer | src/renderer/batch.cpp:445-451 | the layer exists afterwards, and only a missing one is added, empty |
| Batching.RendererData.GetBatchGroup | src/renderer/batch.cpp:518-539 | the group of the truncated z-index key, unchanged when present, otherwise created with exactly one new batch whose texture capacity is max_texture_slots - 1; every other group and layer stays (the layers are WithGroup of GroupAt) |
| Batching.RendererData.GetBatch | src/renderer/batch.cpp:541-547 | the last batch when it has room for the kind, otherwise a new batch appended; either way the result is the group's last batch and has room, and the layers are WithGroup of ShapeGroup |
| Batching.RendererData.GetTextureBatch | src/renderer/batch.cpp:549-570 | the first batch with room that can bind the texture, bound there; otherwise a new appended batch where the texture gets index 1; the texture then sits in the returned slot |
| Batching.RendererData.PushShape | src/renderer/batch.cpp:98-101 | the shape is appended to the chosen batch and every batch stays valid |
| Batching.RendererData.AddShape | src/renderer/batch.cpp:453-516 | a line, point, circle, triangle or shader draw: the batch ShapeGroup picks in the group GroupAt yields becomes Pushed of itself, and every other batch, group and layer stays |
| Batching.RendererData.AddQuad | src/renderer/batch.cpp:465-482 | the white texture draws with index 0; any other texture with the slot that binds it; the batch QuadGroup picks becomes PushedQuad of itself with that index, and every other batch, group and layer stays |
| Batching.TextureBatch | src/renderer/batch.cpp:549-570 | the loop binds the texture in the batch FirstTextureBatch names, or appends a new batch where it gets index 1; the batch has quad room and its slot holds the texture, and every batch stays valid |
| Batching.FirstTextureBatchAt | src/renderer/batch.cpp:553-563 | the first batch the loop accepts is the one FirstTextureBatch names |
| Batching.RendererData.QuadSlot | src/renderer/batch.cpp:465-481 | the batch chosen for a quad has room; the white texture gets index 0 and any other texture the slot that binds it; the layers are WithGroup of QuadGroup |
| LayerRendering.BatchWithTexture | src/renderer/render_data.cpp:19-21 | a batch made for a texture binds exactly that texture and holds no shapes |
| LayerRendering.Pushed | src/renderer/render_data.h:229 | one more shape of the kind and no other change to the counts; a quad records its texture index and the textures stay |
| LayerRendering.AvailableTextureIndex | src/renderer/render_data.cpp:31-50 | a bound texture gets its position plus one with the batch unchanged; with max_texture_slots - 1 textures bound a new one gets 0; otherwise it is appended and gets the new size |
| LayerRendering.GetAvailableTextureIndex | src/renderer/render_data.cpp:31-50 | the loop returns exactly the index and batch AvailableTextureIndex describes |
| LayerRendering.TotalAppend | src/renderer/render_data.h:178-187 | a new batch adds its own shapes of every kind to the layer's total |
| LayerRendering.TotalUpdate | src/renderer/render_data.h:168-177 | replacing one batch changes the layer's total by the difference between the two batches |
| LayerRendering.FirstTexturedBatch | src/renderer/render_data.h:166-177 | the first batch with quad room where the texture gets a non-zero index, with every earlier batch full or unable to bind it; none when no batch qualifies |
| LayerRendering.Placement | src/renderer/render_data.h:150-194 | the batch a shape goes to (at most one past the last) and its texture index; anything but a textured quad gets index 0 in the last batch or a new one |
| LayerRendering.AddedToGroup | src/renderer/render_data.h:150-232 | AddPrimitive on one layer's batches as a value: at most one batch is appended |
| LayerRendering.AddedToGroupChanges | src/renderer/render_data.h:150-232 | only the batch Placement names changes, or one batch is appended exactly when it names the end; that batch holds the shape, a quad with Placement's index |
| LayerRendering.AddedAll | src/renderer/render_data.cpp:442-459 | the shapes added one after the other: between none and one new batch per shape |
| LayerRendering.AddedAllStep | src/renderer/render_data.cpp:442-459 | one more shape of the list is one more AddedToGroup |
| LayerRendering.TextureIndexValid | src/renderer/render_data.cpp:31-50 | GetAvailableTextureIndex keeps a batch within max_texture_slots - 1 distinct textures and the capacity of every kind |
| LayerRendering.PushedValid | src/renderer/render_data.h:189-229 | a shape added to a batch with room for its kind, with the white or a bound texture index, keeps the batch valid |
| LayerRendering.RenderData.constructor | src/renderer/render_data.h:289-294 | no layers, the view projection to be sent, capacity at least 1 |
| LayerRendering.RenderData.GetLayerBatches | src/renderer/render_data.cpp:501-517 | the layer exists afterwards; only a missing layer is added, with one empty batch |
| LayerRendering.RenderData.SetViewProjection | src/renderer/render_data.cpp:133-136 | the new matrix is marked to be sent at the next flush |
| LayerRendering.RenderData.Flush | src/renderer/render_data.cpp:77-131 | with no layers nothing changes; otherwise every layer is drawn exactly once in ascending layer order, the matrix is marked sent and the layers are cleared |
| LayerRendering.AscendingKeys | src/renderer/render_data.cpp:118-120 | the layers come out strictly ascending, each exactly once |
| LayerRendering.MinOf | src/renderer/render_data.cpp:118-120 | the smallest layer of a non-empty set |
| LayerRendering.RenderData.AddShapes | src/renderer/render_data.cpp:442-459 | no shapes leave every layer as it was, with no layer created; otherwise only the drawn layer changes, its batches gain exactly the shapes of each kind and are AddedAll of the shapes on the batches GetLayerBatches yields |
| LayerRendering.RenderData.AddShapesAt | src/renderer/render_data.cpp:448-457 | the loop over the shapes on an existing layer: only that layer changes, it gains exactly the shapes and is AddedAll of them |
| LayerRendering.RenderData.AddOne | src/renderer/render_data.h:150-232 | one primitive: only its layer changes, it gains the shape and is AddedToGroup of it |
| LayerRendering.CountConcat | src/renderer/render_data.cpp:442-459 | the shapes of two lists drawn one after the other count as the sum of both |
| LayerRendering.RenderData.AddTexture | src/renderer/render_data.cpp:138-145 | only the drawn layer changes, to AddedToGroup of one quad of the texture; the batch Placement names holds the quad, with index 0 for the white texture and otherwise the slot that holds the texture |
| LayerRendering.LineShapes | src/renderer/render_data.cpp:168-183 | a line at most 1 wide is one line primitive, and a wider one is one white quad |
| LayerRendering.RenderData.AddLine | src/renderer/render_data.cpp:168-183 | the layer gains exactly the shapes of LineShapes; only that layer changes, to AddedAll of them |
| LayerRendering.PointShapes | src/renderer/render_data.cpp:185-194 | a radius at most 1 is one point primitive, a larger one one filled ellipse |
| LayerRendering.RenderData.AddPoint | src/renderer/render_data.cpp:185-194 | the layer gains exactly the shapes of PointShapes; only that layer changes, to AddedAll of them |
| LayerRendering.TriangleOutline | src/renderer/render_data.cpp:196-206 | a filled triangle is one triangle primitive, and a hollow one at most 1 wide the three lines (0,1), (1,2), (2,0) |
| LayerRendering.RenderData.AddTriangle | src/renderer/render_data.cpp:196-206 | the layer gains exactly the shapes of TriangleOutline; only that layer changes, to AddedAll of them |
| LayerRendering.EdgeShapesAre | src/renderer/render_data.cpp:222-229 | edge i joins vertex i to vertex (i + 1) mod n, or is one white quad when the line is wider than 1 |
| LayerRendering.HollowRect | src/renderer/render_data.cpp:208-231 | a filled rect is one white quad; a hollow one at most 1 wide the four lines (0,1), (1,2), (2,3), (3,0); a thicker one four white quads |
| LayerRendering.RenderData.AddRect | src/renderer/render_data.cpp:208-231 | the layer gains exactly the shapes of the rect's fill or edges; only that layer changes, to AddedAll of those shapes |
| LayerRendering.TriangleShapes | src/renderer/render_data.cpp:445-450 | one triangle primitive per triangle of the triangulation, in order |
| LayerRendering.RenderData.AddPolygon | src/renderer/render_data.cpp:442-459 | a filled polygon adds the triangulation's triangles and an outline the n edges from each vertex to the next; there are no shapes exactly when the triangulation is empty (filled) or there are no vertices (outline), and then no layer changes or is created; otherwise only the drawn layer changes, to AddedAll of those shapes |
| LayerRendering.RenderData.AddPrimitive | src/renderer/render_data.h:150-232 | only the drawn layer changes; it gains the one shape, in a batch that holds it; a textured quad gets the slot that binds its texture, and any other shape index 0 in the last batch; the batches are AddedToGroup of the shape and the returned batch and index are Placement |
| LayerRendering.AddToGroup | src/renderer/render_data.h:150-194 | the same choice on one layer's batches: the batches stay valid and gain exactly the shape, and are AddedToGroup of it, at Placement |
| LayerRendering.AddToLastBatch | src/renderer/render_data.h:183-188 | the last batch takes the shape unless it is full of the kind, in which case a new empty batch is appended and takes it; the batches stay valid |
| LayerRendering.AddTexturedQuad | src/renderer/render_data.h:164-182 | the quad goes to the batch FirstTexturedBatch names with the index it gets there, or to a new batch bound to the texture with index 1; the slot then holds the texture |
| LayerRendering.FirstTexturedBatchAt | src/renderer/render_data.h:168-177 | the first batch the loop accepts is the one FirstTexturedBatch names |
| LayerRendering.SlotTaken | src/renderer/render_data.h:172-176 | a batch with quad room that binds the texture takes the quad and the batches stay valid |
| LayerRendering.NewTexturedBatch | src/renderer/render_data.h:179-181 | a new batch bound to the texture takes the quad with index 1 and the batches stay valid |
| GLContextState.GetColorComponentCount | engine/src/renderer/gl/gl_context.h:1110-1130 | RGB/BGR give 3, RGBA/BGRA 4, RG and DEPTH_STENCIL 2, the five single-channel formats 1, and any other format 0, each in both directions |
| GLContextState.ComponentCountIsChannels | engine/src/renderer/gl/gl_context.h:1110-1130 | the component count equals the number of channels the format names, so the BGR orders count the same as RGB |
| GLContextState.SupportsMipmaps | engine/src/renderer/gl/gl_context.h:1317-1322 | true exactly for the four *_MIPMAP_* filters |
| GLContextState.PlainFiltersLackMipmaps | engine/src/renderer/gl/gl_context.h:1317-1322 | NEAREST and LINEAR do not support mipmaps; the first and last mipmap filters do |
| GLContextState.FactorsInjective | engine/src/renderer/gl/gl_context.h:639-677 | two blend modes set the same four blend factors only when they are the same mode |
| GLContextState.WithBound | engine/src/renderer/gl/gl_context.h:376-430 | recording a bind makes the handle the bound one of its kind and keeps blending, depth test, active slot and the number of texture units |
| GLContextState.BindKeepsOthers | engine/src/renderer/gl/gl_context.h:376-458 | binding one kind of resource leaves what is bound for every other kind (a vertex array carries its own buffers) |
| GLContextState.RestoreUndoesBind | engine/src/renderer/gl/gl_context.h:64-81 | the bind guard's restoring bind gives back exactly the state before the bind |
| GLContextState.LookupLocation | engine/src/renderer/gl/gl_context.h:975-991 | the name ends up cached with the returned location; a name already cached returns its location, a new one the queried location; other entries are kept |
| GLContextState.LookupCached | engine/src/renderer/gl/gl_context.h:975-991 | after the first lookup, a second lookup of the name returns the cached location and changes nothing, whatever the driver would answer |
| GLContextState.GLContext.constructor | engine/src/renderer/gl/gl_context.h:1410 | the cache starts from a state in which blending and depth testing are not both on, with no calls made and no uniform cached |
| GLContextState.GLContext.SetDepthMask | engine/src/renderer/gl/gl_context.h:538-545 | the mask is cached; the GL call is made only when it changes |
| GLContextState.GLContext.SetBlending | engine/src/renderer/gl/gl_context.h:547-560 | enabling blending first disables depth testing, so the two are never both on; the enable or disable call is made only on a change |
| GLContextState.GLContext.SetDepthFunc | engine/src/renderer/gl/gl_context.h:562-569 | the depth function is cached; the call is made only on a change |
| GLContextState.GLContext.SetDepthTesting | engine/src/renderer/gl/gl_context.h:571-585 | enabling depth testing first disables blending and clears the depth to 1; the two are never both on |
| GLContextState.GLContext.SetLineWidth | engine/src/renderer/gl/gl_context.h:597-603 | the width is cached; the call is made only on a change |
| GLContextState.GLContext.SetLineSmoothing | engine/src/renderer/gl/gl_context.h:605-616 | enabling smoothing turns blending on (and so depth testing off) before enabling it; disabling makes the call every time and changes no cached state |
| GLContextState.GLContext.SetPolygonMode | engine/src/renderer/gl/gl_context.h:618-637 | both modes are cached; equal modes make one FRONT_AND_BACK call, different ones a call per face, none when unchanged |
| GLContextState.GLContext.SetBlendMode | engine/src/renderer/gl/gl_context.h:639-677 | blending is left enabled, depth testing off and the mode cached; the equation and factors are set only when the mode changes |
| GLContextState.GLContext.SetViewport | engine/src/renderer/gl/gl_context.h:711-723 | the viewport is cached; the call is made only on a change |
| GLContextState.GLContext.SetClearColor | engine/src/renderer/gl/gl_context.h:725-735 | the clear colour is cached; the call is made only on a change |
| GLContextState.GLContext.SetColorMask | engine/src/renderer/gl/gl_context.h:756-762 | the colour mask is cached; the call is made only on a change |
| GLContextState.GLContext.SetScissor | engine/src/renderer/gl/gl_context.h:764-778 | the scissor is cached; on a change it is enabled with its box or disabled |
| GLContextState.GLContext.SetCull | engine/src/renderer/gl/gl_context.h:780-795 | the cull state is cached; on a change the capability, face and winding are all set |
| GLContextState.GLContext.SetStencil | engine/src/renderer/gl/gl_context.h:797-817 | the stencil state is cached; on a change capability, function, operations and write mask are all set |
| GLContextState.GLContext.SetActiveTexture | engine/src/renderer/gl/gl_context.h:1216-1226 | the slot is cached; GL_TEXTURE0 + slot is activated only on a change, and a changed slot must be below the slot count |
| GLContextState.GLContext.GetBound | engine/src/renderer/gl/gl_context.h:431-455 | the handle cached as bound for the kind (buffers through the bound vertex array, textures through the active slot) |
| GLContextState.GLContext.IsBound | engine/src/renderer/gl/gl_context.h:456-458 | true exactly when the handle is the bound one of its kind |
| GLContextState.GLContext.Bind | engine/src/renderer/gl/gl_context.h:376-430 | binding the bound handle changes nothing and returns no guard; otherwise the bind call is made, the handle cached, and a restoring guard holding the previous handle returned when asked |
| GLContextState.GLContext.GetUniform | engine/src/renderer/gl/gl_context.h:975-991 | the bound shader's location cache behaves as LookupLocation, other shaders' caches are kept, and the driver is queried only for a name not cached yet |
| GLContextState.GLContext.SetUniform | engine/src/renderer/gl/gl_context.h:819-973 | the location comes from GetUniform, and the uniform call is made only when the location is not -1 |
| ShaderText.FirstKept | engine/src/renderer/material/shader.cpp:43-46 | the first position that is not one of the four trimmed characters, everything before it being trimmed |
| ShaderText.LastKept | engine/src/renderer/material/shader.cpp:47 | the last position that is not trimmed, everything after it being trimmed |
| ShaderText.FirstKeptUnique | engine/src/renderer/material/shader.cpp:43-46 | any position with those two properties is FirstKept |
| ShaderText.LastKeptUnique | engine/src/renderer/material/shader.cpp:47 | any position with those two properties is LastKept |
| ShaderText.TrimWhitespace | engine/src/renderer/material/shader.cpp:43-50 | empty exactly when the text is all space, newline, return and tab; otherwise the slice from FirstKept whose ends are not trimmed characters, with only trimmed characters around it |
| ShaderText.TrimIdempotent | engine/src/renderer/material/shader.cpp:43-50 | trimming twice is trimming once |
| ShaderText.TrimStripsPadding | engine/src/renderer/material/shader.cpp:43-50 | padding of trimmed characters around a text with untrimmed ends comes off completely |
| ShaderText.TrimKeepsOtherWhitespace | engine/src/renderer/material/shader.cpp:43 | vertical tab and form feed are not in the trimmed set and stay |
| ShaderText.Find | engine/src/renderer/material/shader.cpp:313-324 | a found position is at or after the start and the pattern occurs there |
| ShaderText.FindFirst | engine/src/renderer/material/shader.cpp:313-324 | there is no occurrence between the start and the found position, and none at all after the start when none is found |
| ShaderText.FindIs | engine/src/renderer/material/shader.cpp:313-324 | the first occurrence at or after the start is what Find returns |
| ShaderText.FindShift | engine/src/renderer/material/shader.cpp:313-324 | searching from n + k is searching the suffix from k, shifted by n |
| ShaderText.RFind | engine/src/renderer/material/shader.cpp:62-73 | the last occurrence of the pattern, or none when it does not occur |
| ShaderText.Contains | engine/src/renderer/material/shader.cpp:137-139 | true exactly when the pattern occurs somewhere |
| ShaderText.TrimRawStringLiteral | engine/src/renderer/material/shader.cpp:62-73 | without an opening or closing raw-literal marker the text is kept; otherwise the text strictly between the first opening and the last closing marker is taken when it is not empty and otherwise the text is kept |
| ShaderText.RawLiteralExamples | engine/src/renderer/material/shader.cpp:62-73 | R"(void main)" gives void main; a text without markers and the empty literal R"()" are kept as they are |
| ShaderText.NatToString | engine/src/renderer/material/shader.cpp:300-311 | the decimal digits of the number, with no leading zero except for 0 itself |
| ShaderText.DecimalRoundTrip | engine/src/renderer/material/shader.cpp:300-311 | reading the digits back gives the number |
| ShaderText.NatToStringInjective | engine/src/renderer/material/shader.cpp:300-311 | different numbers print differently |
| ShaderText.RunEnd | engine/src/renderer/material/shader.cpp:91 | the end of the longest run of the class's characters from i |
| ShaderText.RunEndMembers | engine/src/renderer/material/shader.cpp:91 | every character of the run is in the class |
| ShaderText.RunEndIs | engine/src/renderer/material/shader.cpp:91 | any end with those properties is RunEnd |
| ShaderText.GetShaderType | engine/src/renderer/material/shader.cpp:52-59 | "fragment" and "vertex" map to their stage and nothing else does; an unknown name is reported |
| ShaderText.ShaderTypeOfName | engine/src/renderer/material/shader.cpp:52-59 | the name of a stage maps back to that stage |
| ShaderText.MatchTypeAt | engine/src/renderer/material/shader.cpp:91-100 | a match of #type, whitespace and a word at i, within the text |
| ShaderText.MatchTypeShape | engine/src/renderer/material/shader.cpp:91-100 | a match is #type at i, then only whitespace, then the captured word, ended by a non-word character or the end |
| ShaderText.Markers | engine/src/renderer/material/shader.cpp:91-100 | the successive non-overlapping matches from a position, in order, each inside the text |
| ShaderText.MarkersMatch | engine/src/renderer/material/shader.cpp:91-100 | every listed marker is a match at its position |
| ShaderText.NoMatchBeforeMarkers | engine/src/renderer/material/shader.cpp:91-100 | there is no match before the first marker |
| ShaderText.NoMatchAfterMarker | engine/src/renderer/material/shader.cpp:91-100 | there is no match between the end of a marker and the next one |
| ShaderText.CodeStartsAgree | engine/src/renderer/material/shader.cpp:116-118 | the as-written code start equals the end of the match exactly when one space follows #type, and is never after it |
| ShaderText.BlockCodes | engine/src/renderer/material/shader.cpp:114-128 | one trimmed block per marker, from the code start to the next marker or the end |
| ShaderText.ContainsType | engine/src/renderer/material/shader.cpp:82-86 | true exactly when a source of the stage is already listed |
| ShaderText.ParseShaderSources | engine/src/renderer/material/shader.cpp:75-135 | the result of the loop is that of the specification ParseShaderSourcesSpec, with each block's code starting at the end of its marker's match, the corrected start; the start as written at 116-118 (marker plus 6 plus the name's length) is ParseShaderSourcesAsWritten, exhibited by TwoSpacesAsWritten |
| ShaderText.NoTypeDeclarationIff | engine/src/renderer/material/shader.cpp:103-105 | the missing-#type error is reported exactly when the unwrapped text has no marker |
| ShaderText.ParseOkIff | engine/src/renderer/material/shader.cpp:103-132 | parsing succeeds exactly when there is a marker, every marker names a stage and no stage repeats |
| ShaderText.ParseOkSources | engine/src/renderer/material/shader.cpp:107-132 | on success the header is the trimmed text before the first marker, and source k has marker k's stage, its trimmed block and the file name |
| ShaderText.ParseOkDistinct | engine/src/renderer/material/shader.cpp:129 | on success no two sources have the same stage |
| ShaderText.TwoSpacesAsWritten | engine/src/renderer/material/shader.cpp:116-118 | with two spaces after #type, the as-written start keeps the name's last character and a newline in front of the code; the corrected parse gives only the code |
| ShaderLayout.HasOption | engine/src/renderer/material/shader.cpp:137-139 | true exactly when "#option " followed by the name occurs in the text |
| ShaderLayout.OptionFound | engine/src/renderer/material/shader.cpp:137-139 | a text containing the option line has the option |
| ShaderLayout.NoHashNoOption | engine/src/renderer/material/shader.cpp:137-139 | a text without '#' has no option |
| ShaderLayout.Lines | engine/src/renderer/material/shader.cpp:246 | the lines getline reads: no line contains a newline |
| ShaderLayout.LinesThenUnlines | engine/src/renderer/material/shader.cpp:246-296 | writing each line back with a newline gives the text, plus a final newline when it lacked one |
| ShaderLayout.UnlinesThenLines | engine/src/renderer/material/shader.cpp:246-296 | reading back lines written with newlines gives those lines |
| ShaderLayout.IdentifierAt | engine/src/renderer/material/shader.cpp:239-242 | a longest identifier (a letter or underscore, then word characters) from i |
| ShaderLayout.QualifierAt | engine/src/renderer/material/shader.cpp:239-242 | "in" or "out" occurs at i |
| ShaderLayout.ParseDeclaration | engine/src/renderer/material/shader.cpp:239-242 | a matched declaration has an identifier type and an identifier name |
| ShaderLayout.DeclarationRoundTrip | engine/src/renderer/material/shader.cpp:239-242 | the text "qualifier type name;" parses back to the declaration |
| ShaderLayout.SearchLayout | engine/src/renderer/material/shader.cpp:244 | true exactly when a layout(location = n) clause starts at some position from i |
| ShaderLayout.LayoutLineHasLayout | engine/src/renderer/material/shader.cpp:281-283 | an injected layout line contains a layout clause |
| ShaderLayout.LayoutLineIsNoDeclaration | engine/src/renderer/material/shader.cpp:239-242 | an injected layout line is not itself a plain declaration |
| ShaderLayout.MainFrom | engine/src/renderer/material/shader.cpp:248-251 | the first line from i that contains void main, or the end |
| ShaderLayout.CountDeclarations | engine/src/renderer/material/shader.cpp:279 | the number of declarations with the qualifier before line n, at most n |
| ShaderLayout.FirstCustomLayout | engine/src/renderer/material/shader.cpp:258-261 | the first line before main with a custom layout clause, none of the earlier ones having one |
| ShaderLayout.AddShaderLayout | engine/src/renderer/material/shader.cpp:214-298 | the result of the line loop is that of the specification AddShaderLayoutSpec |
| ShaderLayout.LayoutClosedForm | engine/src/renderer/material/shader.cpp:214-298 | the layout pass equals its closed form: before main each declaration gets the next location of its qualifier, everything else is copied, and a custom layout before main is an error |
| ShaderLayout.LocationsIncrease | engine/src/renderer/material/shader.cpp:279 | later declarations of a qualifier get strictly larger locations |
| ShaderLayout.NothingToLayOut | engine/src/renderer/material/shader.cpp:214-298 | a text without declarations or layouts before main comes back with a newline after each line |
| ShaderTokens.GenerateTextureSwitchBlock | engine/src/renderer/material/shader.cpp:300-311 | the concatenation of the per-slot if blocks for slots 0 to n - 1 |
| ShaderTokens.SwitchBlockPrefix | engine/src/renderer/material/shader.cpp:300-311 | the block for fewer slots is a prefix of the block for more |
| ShaderTokens.SwitchBlockSlot | engine/src/renderer/material/shader.cpp:300-311 | slot i's block sits in the whole block at the length of the block for i slots |
| ShaderTokens.SlotBlockInjective | engine/src/renderer/material/shader.cpp:302-308 | different slots give different blocks |
| ShaderTokens.ReplaceAll | engine/src/renderer/material/shader.cpp:313-324 | the result of the loop is that of the specification ReplaceAllSpec; an empty pattern leaves the text |
| ShaderTokens.ReplaceByItself | engine/src/renderer/material/shader.cpp:313-324 | replacing a pattern by itself changes nothing |
| ShaderTokens.ReplacementNotRescanned | engine/src/renderer/material/shader.cpp:320-321 | the search resumes after the inserted text, so the replacement is never searched again |
| ShaderTokens.ReplaceAbsent | engine/src/renderer/material/shader.cpp:313-324 | a text without the pattern is unchanged |
| ShaderTokens.ReplaceLoopRemoves | engine/src/renderer/material/shader.cpp:313-324 | when pattern and replacement cannot overlap, no occurrence of the pattern is left |
| ShaderTokens.SubstituteShaderTokens | engine/src/renderer/gl/gl_context.cpp:433-448 | for a positive slot count every source has both tokens replaced (slot count, then switch block) and keeps its stage and name; zero slots is refused and leaves the sources |
| ShaderTokens.SlotsTokenReplaced | engine/src/renderer/gl/gl_context.cpp:445 | no {MAX_TEXTURE_SLOTS} token is left after its replacement |
| ShaderManagement.RegisteredHolds | engine/src/renderer/material/shader.cpp:356-378 | compiling registers each source's name hash under its stage with its id, keeps the earlier entries and adds no other key |
| ShaderManagement.RegisteredOtherKind | engine/src/renderer/material/shader.cpp:356-378 | sources of the other stage leave a cache unchanged |
| ShaderManagement.StageNames | engine/src/renderer/material/shader.cpp:442-456 | vertex and fragment names when both are given, otherwise the source name for both, and an error when neither form is present |
| ShaderManagement.ItemShader | engine/src/renderer/material/shader.cpp:442-479 | a manifest entry gives the shader of the two cached stage ids exactly when both stage names are in their caches; a missing form is reported |
| ShaderManagement.PopulateError | engine/src/renderer/material/shader.cpp:438-482 | no error exactly when every entry loads; an error is that of the first entry that fails |
| ShaderManagement.PopulateLoads | engine/src/renderer/material/shader.cpp:438-482 | without an error every entry's name is loaded and earlier shaders are kept |
| ShaderManagement.ShaderManager.Get | engine/src/renderer/material/shader.cpp:501-508 | a present name gives one of the loaded shaders |
| ShaderManagement.ShaderManager.GetStage | engine/src/renderer/material/shader.cpp:510-526 | a present stage name gives an id from that stage's cache |
| ShaderManagement.ShaderManager.Has | engine/src/renderer/material/shader.cpp:528-531 | holds exactly when a shader is stored under the name's hash, and then that stored shader is one of the loaded ones |
| ShaderManagement.ShaderManager.HasStage | engine/src/renderer/material/shader.cpp:533-544 | a vertex name is looked up in the vertex cache only and a fragment name in the fragment cache only |
| ShaderManagement.ShaderManager.TryLoad | engine/src/renderer/material/shader.cpp:484-490 | the first load of a name stores the shader; a later one keeps and returns the stored shader |
| ShaderManagement.ShaderManager.TryLoadStages | engine/src/renderer/material/shader.cpp:492-499 | the same for a shader given as two stages |
| ShaderManagement.ShaderManager.CompileShaders | engine/src/renderer/material/shader.cpp:356-378 | each cache becomes the registration of its stage's sources, and every source's stage name then gives its id |
| ShaderManagement.ShaderManager.PopulateShadersFromCache | engine/src/renderer/material/shader.cpp:438-482 | the shaders and the error are those of the specification PopulateFrom over the manifest entries in order |
| Broadphase.OverlapsIffCommonPoint | demos/broadphase/src/application.cpp:39-43 | two well-formed boxes overlap exactly when they share a point (edges count), and overlap is symmetric |
| Broadphase.Centers | demos/broadphase/src/application.cpp:287-290 | one centre per object, centre i being the midpoint of object i's box on the axis |
| Broadphase.InsertReal | demos/broadphase/src/application.cpp:293 | inserting into a sorted sequence keeps it sorted and adds exactly the one value |
| Broadphase.SortReals | demos/broadphase/src/application.cpp:293 | a sorted permutation of the centres |
| Broadphase.NthElement | demos/broadphase/src/application.cpp:292-294 | the value nth_element puts at position k is one of the centres |
| Broadphase.SortSorted | demos/broadphase/src/application.cpp:293 | sorting sorted centres leaves them |
| Broadphase.SplitPartitions | demos/broadphase/src/application.cpp:300-307 | the two sides together are the objects, as a multiset and by count |
| Broadphase.SidesBound | demos/broadphase/src/application.cpp:300-307 | the left side lies strictly below the split value and the right side at or above it |
| Broadphase.MedianUpperSide | demos/broadphase/src/application.cpp:292-307 | the right side of a median split is never empty |
| Broadphase.NoneBelow | demos/broadphase/src/application.cpp:300-307 | when no centre is below the split value, everything goes right and the left side is empty |
| Broadphase.SameBoxesRecurseAsWritten | demos/broadphase/src/application.cpp:274-312 | as written, objects with equal boxes split into an empty left side and every object on the right, at any depth |
| Broadphase.TwinBoxesRecurseAsWritten | demos/broadphase/src/application.cpp:274-312 | two objects with one box: at every depth the right side is the whole input, so the recursion never shrinks |
| Broadphase.BuildAsWritten | demos/broadphase/src/application.cpp:274-312 | BuildRecursive as written, within a bound on its recursion depth: a built node is on the depth's axis |
| Broadphase.BuildAsWrittenNode | demos/broadphase/src/application.cpp:274-312 | more objects than a leaf holds build, as written, a node at the median on the depth's axis over the builds of the two sides |
| Broadphase.TwinBoxesNeverBuildAsWritten | demos/broadphase/src/application.cpp:274-312 | as written, two objects with one box and one object per leaf build no tree within any bound |
| Broadphase.MedianOfSorted | demos/broadphase/src/application.cpp:292-294 | nth_element of sorted values is the value at that position |
| Broadphase.ThreeCenters | demos/broadphase/src/application.cpp:287-294 | the median of three ordered centres is the middle one |
| Broadphase.SkewedSplitX | demos/broadphase/src/application.cpp:292-307 | two objects sharing the smallest x centre and a third to their right: the x median is the smallest centre and every object goes right |
| Broadphase.SkewedSplitY | demos/broadphase/src/application.cpp:292-307 | the same objects with ascending y centres: the y median is the middle one and only the first goes left |
| Broadphase.SkewedBuildAsWritten | demos/broadphase/src/application.cpp:274-312 | as written, such objects with two per leaf do build, into a root with no left child and a y split below it, a tree that is not Full |
| Broadphase.SkewedBuildY | demos/broadphase/src/application.cpp:274-312 | from a y level the same objects build, as written, a node at the middle y centre over a leaf of the first and a leaf of the other two |
| Broadphase.SkewedInsertDropped | demos/broadphase/src/application.cpp:274-312 | an object centred left of them is dropped by InsertIntoLeaf on that tree, while the corrected build keeps the three in one leaf, where it lands |
| Broadphase.SkewedBoxes | demos/broadphase/src/application.cpp:274-312 | the boxes centred at (0, 0), (0, 1) and (1, 2), and one at (-2, 0), are such an example |
| Broadphase.StackedBoxesSplitAsWritten | demos/broadphase/src/application.cpp:292-312 | three objects whose centres are not all equal still split with an empty left side when the median is the smallest centre, as does any later split of them |
| Broadphase.BuildTreeHolds | demos/broadphase/src/application.cpp:274-312 | the corrected build keeps exactly the objects, puts each left of a split strictly below it and each right at or above, and leaves no empty node |
| Broadphase.BuildTreeLeaf | demos/broadphase/src/application.cpp:275-283 | no objects give no node; up to the limit one leaf on the depth's axis; a larger input stays a leaf only when its median split has an empty left side |
| Broadphase.ComputeCenters | demos/broadphase/src/application.cpp:287-290 | the loop computes Centers |
| Broadphase.Partition | demos/broadphase/src/application.cpp:296-307 | the loop's two sides are Below and AtOrAbove of the split value, in input order |
| Broadphase.BuildRecursive | demos/broadphase/src/application.cpp:274-312 | the corrected recursive build computes BuildTree |
| Broadphase.HitsMembers | demos/broadphase/src/application.cpp:191-208 | an entity is reported exactly when a live object of it overlaps the region |
| Broadphase.QueryNode | demos/broadphase/src/application.cpp:191-208 | appends to the result the entities of every live stored object overlapping the region, in tree order |
| Broadphase.LiveIdempotent | demos/broadphase/src/application.cpp:424-438 | dropping deleted objects twice drops them once, and keeps exactly the live ones |
| Broadphase.CompactKeepsLive | demos/broadphase/src/application.cpp:424-438 | compaction leaves exactly the live objects in order and keeps the tree shape at the root |
| Broadphase.CompactRemovesDeleted | demos/broadphase/src/application.cpp:424-438 | no deleted object is left after compaction |
| Broadphase.CompactSameHits | demos/broadphase/src/application.cpp:424-438 | compaction changes no query answer |
| Broadphase.CompactSameCopies | demos/broadphase/src/application.cpp:424-438 | compaction changes no entity's live copies |
| Broadphase.InsertLands | demos/broadphase/src/application.cpp:441-457 | an inserted object lands in exactly one place, undeleted, with everything else kept in order |
| Broadphase.InsertOthers | demos/broadphase/src/application.cpp:441-457 | insertion changes no other entity's live copies |
| Broadphase.InsertOwn | demos/broadphase/src/application.cpp:441-457 | inserting an entity with no live copy gives it exactly the inserted one |
| Broadphase.MarkFirstAbsent | demos/broadphase/src/application.cpp:403-409 | a leaf without the entity is unchanged and reports not found |
| Broadphase.MarkDeletedCopies | demos/broadphase/src/application.cpp:403-409 | marking an entity deleted removes all its live copies and no other entity's |
| Broadphase.RemoveEntityCopies | demos/broadphase/src/application.cpp:393-422 | the corrected removal, which looks in every leaf, leaves the entity no live copy and every other entity its copies |
| Broadphase.ReplaceAtHolds | demos/broadphase/src/application.cpp:377-387 | putting a subtree with the same objects back at a leaf's path keeps the tree's objects |
| Broadphase.SplitLeafHolds | demos/broadphase/src/application.cpp:476-530 | the corrected leaf split keeps the objects and, applied to a leaf, gives a partitioned subtree |
| Broadphase.SplitLeafAllSame | demos/broadphase/src/application.cpp:495-499 | a leaf whose centres all agree is left as it is, on the depth's axis |
| Broadphase.SplitNodeExternal | demos/broadphase/src/application.cpp:476-530 | the corrected split method computes SplitLeaf |
| Broadphase.AllEqualFirst | demos/broadphase/src/application.cpp:495-499 | true exactly when every centre equals the first |
| Broadphase.RemoveMoved | demos/broadphase/src/application.cpp:346-357 | after the removal pass no moved entity has a live copy and every other entity keeps its copies |
| Broadphase.InsertMoved | demos/broadphase/src/application.cpp:359-368 | after the insertion pass each moved entity still in the map has exactly its current object, and every other entity keeps its copies |
| Broadphase.SplitTouched | demos/broadphase/src/application.cpp:370-387 | splitting the touched leaves keeps the tree's objects |
| Broadphase.RebuildSync | demos/broadphase/src/application.cpp:141-150 | a full rebuild from the map leaves each entity exactly its map entry as live copy |
| Broadphase.MapOfHolds | demos/broadphase/src/application.cpp:73-81 | the map keeps one object per entity that occurs, and for objects without duplicates or deleted ones the map agrees with the objects |
| Broadphase.Enumerate | demos/broadphase/src/application.cpp:144-146 | a duplicate-free listing of the map's entities |
| Broadphase.RebuildLimit | demos/broadphase/src/application.cpp:140-141 | the rebuild threshold count is at least 1 |
| Broadphase.PlanThresholds | demos/broadphase/src/application.cpp:125-159 | with threshold at most 1 a frame that moves every entity rebuilds; threshold at most 0 rebuilds on any move; a partial update means fewer moves than the limit |
| Broadphase.QueryReflectsMap | demos/broadphase/src/application.cpp:161-165 | in a tree that agrees with its map, an entity is reported exactly when its map box overlaps the region, and at most once |
| Broadphase.KDTree.constructor | demos/broadphase/src/application.cpp:70-71 | an empty tree with the given object limit and rebuild threshold |
| Broadphase.KDTree.Build | demos/broadphase/src/application.cpp:73-81 | the map is made from the objects, the root is the built tree and nothing is pending |
| Broadphase.KDTree.UpdateBoundingAABB | demos/broadphase/src/application.cpp:96-107 | the entity's map entry takes the new box (a new entity is added live), the entity is marked moved, and the tree is not touched |
| Broadphase.KDTree.Insert | demos/broadphase/src/application.cpp:110-114 | the entity's live object with the box is put in the map and the entity marked moved |
| Broadphase.KDTree.Remove | demos/broadphase/src/application.cpp:117-121 | the entity leaves the map and is marked moved |
| Broadphase.KDTree.Query | demos/broadphase/src/application.cpp:161-165 | the report of QueryNode over the root; with no pending moves, exactly the map entities overlapping the region, each once |
| Broadphase.KDTree.EndFrameUpdate | demos/broadphase/src/application.cpp:125-159 | no moves leave the tree; an empty map clears it; many moves rebuild from the map; otherwise a partial update and compaction; in every case the tree then agrees with the map and nothing is pending |
| Broadphase.KDTree.PartialUpdate | demos/broadphase/src/application.cpp:334-388 | with the corrected removal, after the bulk remove, bulk insert and splits every entity's live copies are its map entry |
| Broadphase.TwoObjectTree | demos/broadphase/src/application.cpp:274-312 | two objects with limit 1 build a root split at x = 10 with one leaf each |
| Broadphase.MovedAcrossSplitAsWritten | demos/broadphase/src/application.cpp:393-422 | an object moved across the split is searched by its new box, not found, and left live beside its re-inserted copy, so the tree no longer agrees with the map |
| Broadphase.RemovedEntityAsWritten | demos/broadphase/src/application.cpp:393-422 | a removed entity is searched by its map box, which no longer exists, so it stays in the tree and queries still report it |
| Broadphase.CorrectedRemovalFrames | demos/broadphase/src/application.cpp:393-422 | with the corrected removal the same two frames leave only the moved copy, and no copy of the removed entity |
| Broadphase.BoundingAABBOf | demos/broadphase/src/application.cpp:533-581 | the box is well formed, holds every vertex, and each of its four bounds is attained by a vertex |
| Geometry.CrossSwap | src/math/geometry.cpp:88 | the cross product changes sign when its arguments swap |
| Geometry.ChainAt | src/math/geometry.cpp:466-468 | segment i of a chain runs from point i to point i + 1 |
| Geometry.CyclicChain | src/math/geometry.cpp:454-471 | segments from each point to the next, wrapping at the end, are the closed outline |
| Geometry.OpenChain | src/math/geometry.cpp:454-471 | the same segments without the last one are the open outline |
| Geometry.PointsToLines | src/math/geometry.cpp:454-471 | the loop computes Outline: no lines for fewer than two points, otherwise consecutive segments, closed when asked |
| Geometry.ClosedOutline | src/math/geometry.cpp:460-468 | a closed outline has one segment per point, segment k starts at point k and ends where the next one starts, the last wrapping to the first |
| Geometry.OpenOutline | src/math/geometry.cpp:460-468 | the open outline is the closed one without its closing segment, from the first point to the last |
| Geometry.ChainSumReverse | src/math/geometry.cpp:83-88 | the sum of cross products along a reversed chain is the negated sum |
| Geometry.AreaReversed | src/math/geometry.cpp:74-90 | the signed area of the reversed polygon is the negated area, so reversing flips the winding the triangulation tests |
| Geometry.AreaRotated | src/math/geometry.cpp:74-90 | the signed area does not depend on which vertex comes first |
| Geometry.TriangulateArea | src/math/geometry.cpp:74-90 | the loop computes SignedArea: 0 for fewer than three vertices, otherwise half the sum of each vertex crossed with the next, wrapping |
| Geometry.CornersInside | src/math/geometry.cpp:92-97 | a corner of a triangle counts as inside it exactly when the triangle is counterclockwise or degenerate |
| Geometry.EarHasNoDuplicateCorner | src/math/geometry.cpp:99-128 | an accepted counterclockwise ear has no other listed vertex equal to one of its corners |
| Geometry.TriangulateSnip | src/math/geometry.cpp:99-128 | the loop computes IsEar: a corner triple whose cross product is not nearly zero and holds no other listed vertex |
| Geometry.Range | src/math/geometry.cpp:145-147 | the identity index list |
| Geometry.StartOrderAt | src/math/geometry.cpp:143-151 | entry k is k for a positive area and n - 1 - k otherwise |
| Geometry.StartOrderCounterclockwise | src/math/geometry.cpp:143-151 | the starting list holds each vertex index once, and visiting the vertices in its order gives a non-negative area |
| Geometry.StartIndices | src/math/geometry.cpp:143-151 | a new array holding StartOrder |
| Geometry.RemoveAt | src/math/geometry.cpp:186-191 | entries before v are kept, those after v move down one, and the rest of the array is kept |
| Geometry.NextCorners | src/math/geometry.cpp:166-178 | u is the previous middle, or 0 once it is past the end, and v, w follow it cyclically; the three places are distinct and listed |
| Geometry.CutEar | src/math/geometry.cpp:180-198 | the triangle at the three corners is appended, the middle corner removed from the list, and the clipping invariant kept |
| Geometry.Triangulate | src/math/geometry.cpp:130-204 | no triangles for fewer than three vertices; at most n - 2 triangles; each cuts off three distinct vertex indices and uses only input vertices; no middle corner is cut twice |
| Geometry.CutsMembers | src/math/geometry.cpp:182-185 | every emitted triangle is made from input vertices |
| Geometry.GetOrientation | src/math/geometry.cpp:206-212 | the orientation is -1, 0 or 1 |
| Geometry.ScaleBelow | src/math/geometry.cpp:23-25 | a tolerance below 1 scales a positive magnitude into [0, magnitude) |
| Geometry.StrictlyLessZero | src/math/geometry.cpp:23-25 | against zero, "strictly less" with a tolerance in [0, 1) is plain comparison |
| Geometry.OrientationSign | src/math/geometry.cpp:206-212 | with a tolerance in [0, 1) the orientation is the sign of the determinant: 1 exactly when positive, -1 when negative, 0 when zero |
| Geometry.OrientationSwap | src/math/geometry.cpp:206-212 | swapping the last two points negates the orientation, for any tolerance |
| Geometry.OrientationRotate | src/math/geometry.cpp:206-212 | rotating the three points keeps the orientation |
| Geometry.FanAt | src/math/geometry.cpp:443-448 | triangle k joins the origin to segment k |
| Geometry.GetVisibilityTriangles | src/math/geometry.cpp:430-451 | nothing for fewer than three polygon points, otherwise the fan from the origin over the polygon's closed outline |
| Geometry.FanCloses | src/math/geometry.cpp:443-448 | one triangle per polygon point, all with the origin as apex; triangle k starts at point k and ends where triangle k + 1 starts, wrapping |

## Left out

- scripts/setup.py is not part of this model: it is a dependency downloader outside the engine's core.
- Headers the modelled code includes but that are not part of this model: the shader and geometry headers, math/tolerance.h, src/tweens/tween.h, src/tweening/tween.h, the handle header of src/utility, engine/src/core/scripting/script.h and the header declaring TopDownMovement. Where a default from one of them matters, it is stated as an assumption below.
- Rendering, GL, SDL and driver calls: a GL call is logged (`calls`), a flush appends its batch to `drawn`, and compiled shader ids, uniform locations, tick counts, mouse positions and polled events are parameters.
- Floating point: every float is a `real`, so rounding, infinities and NaN are not modelled. Where a float result decides a branch (a duration of 0, NearlyEqual), the branch is a parameter or exact equality, as listed below.
- Eases, sin/cos/sqrt kernels, noise gradients in floating point, text layout, fonts and the timers' clocks are left out; whether a timer has completed is a parameter of the pass that reads it.
- Concurrency does not arise: every modelled operation is sequential.
- Input.InputHandler.Update: the window-system queue is a parameter. Key, mouse-button, motion, wheel and quit events are modelled; the window events (engine/src/core/input/input_handler.cpp:148-194) only emit a notification and are not modelled, and neither is text input.
- Input.InputHandler.KeyHeld and Input.InputHandler.MouseHeld take the time as a `nat`; a negative duration, which always counts as held, is not modelled.
- EngineScene.SceneManager.PopTop during a flush bypasses deferral in the source; that reentrant path is not modelled. Scene code enqueuing during a flush is modelled by the `reentrant` operations of FlushOps.
- SceneCore: only the SlideLeft transition is concrete; a transition of duration 0 counts as finished (the float division gives infinity or NaN, which std::min maps to 1).
- TweenStates.Tween.Seek (src/tweens/tween.cpp:374-417) is left out: its loop ends only through a float epsilon.
- TweenStates, TweeningTween and TweenHandles: callbacks are taken to leave the tween as it is, and the ease is left out, so the progress reported is the linear one.
- Header defaults assumed for the tweens: total duration 0, repeat 0, not reversed, not yoyo; an invalid handle's Create gives destroy_on_complete true and a non-manager tween.
- src/utility/tween.h does not match src/utility/tween.cpp (reversed_ versus currently_reversed_, missing fields, two functions declared but not defined); the model follows the .cpp file.
- src/tweens/tween_effects.h describes a tween-object design while src/tweens/tween_effects.cpp uses task queues; the model follows the .cpp file.
- src/tweens/tween_effects.cpp repeats the tweening generation's queue step (69-84), translate/rotate/scale/tint systems (86-99), bounce (162-205, 313-333), timed and instant shake (615-650, 652-692) and sole-shake test (292-296); the TweeningEffects members listed for src/tweening/tween_effects.cpp model both copies.
- TweensEffects.FollowEntity.PopAfterArrival: after a velocity follow arrives, the next velocity task does not reapply the movement configuration; this is modelled as written and not claimed as a finding.
- TweensEffects: velocity and lerp following are float kinematics; target liveness, the squared distances to the target before and after the lerp step, and the squared stop distance are parameters.
- Dialogues: the wait script is a boolean `waiting` because the script header is not part of this model; randomness is the `draws` sequence; of SplitTextWithDuration only the split at manual newlines is modelled.
- Scripting: a handler's effect is the `react` parameter, the actions it posts; handlers are taken not to add or remove scripts. The termination of InvokeActions is proved through a ghost rank of the posted actions rather than by the runtime.
- Resources: GetInternalKey (a hash) is a parameter. The nameless Load's comment speaks of deduplication while the code always appends; the model follows the code. The ResourceManager declaration (no body) and the ForEach helpers are left out.
- RenderEngine: line geometry and texture coordinates are float computations; the four corners of a line quad are a parameter. Shared-pointer use counts and timers are fields the caller sets.
- Batching and LayerRendering: a shape is known by its kind, a quad by its texture; vertex positions, colours and the shader uniforms are not modelled.
- GLContextState.GLContext: SetDepthRange is left out (it compares with NearlyEqual). What the driver does with a call is not modelled.
- ShaderText: the regular expressions' `\s` is the six ASCII whitespace characters; std::format of an integer is NatToString.
- ShaderTokens.SubstituteShaderTokens follows gl_context.cpp, which asserts a positive slot count (line 439); shader.cpp's copy (380-393) has no such assertion, and the model reports zero slots through its `ok` result instead of a precondition.
- ShaderManagement: the JSON manifest is a sequence of entries in iteration order, and compiling and linking are GL calls whose ids are parameters. A manifest entry without its forms is reported as an error, where the source stops with PTGN_ERROR. ShaderManager::Init and the cmrc file-system reads are left out.
- Broadphase: the tree is a value, so parents own their nodes by construction and a leaf is named by its path; ComputeDepth is the length of that path. Touched leaves are not deduplicated; splitting a leaf once more changes nothing.
- Broadphase: Raycast and its helpers (application.cpp:167-181 and 210-270) are left out because they are a float ray test. GetBoundingAABB's vertices of a rotated rectangle are a parameter of BoundingAABBOf.
- Broadphase: std::unordered_map's iteration order is the order that Enumerate returns. A rebuild threshold of 0 or below makes the rebuild limit 1, as std::max does.
- Broadphase.KDTree.Build: the tree agrees with the map only for objects without duplicates or deleted flags (ProperObjects), so Valid is promised only then.
- Broadphase.InsertIntoLeaf: an object whose descent reaches a missing child is dropped, as the source's early return does. The corrected build and split make only Full trees, which have no such child. The build as written does make them (BuildAsWritten, SkewedInsertDropped), so keeping a leaf where it would leave an empty lower side changes the tree in some cases where the source does terminate, not only in those where it never ends.
- Broadphase.KDTree.PartialUpdate and Broadphase.KDTree.EndFrameUpdate use the corrected removal (see Findings); the removal as written is RemoveFromTreeAsWritten.
- Geometry: floats are reals; NearlyEqual (math/tolerance.h, not part of this model) is a parameter of Triangulate; StrictlyLess's tolerance is a parameter because its default lives in geometry.h.
- Geometry.GetOrientation returns the Orientation as its integer; the enum's names are in geometry.h, which is not part of this model.
- Geometry.GetVisibilityTriangles takes the visibility polygon as its input: GetVisibilityPolygon and VisibilityRayIntersects are a float angular sweep and are left out, as are GetArcVertices, ClipPolygons, IsInside and ComputeIntersection.
- Geometry.Triangulate: r_count is a 64-bit integer in the source and its wrap-around is not modelled. The contract does not claim that the triangles cover the polygon, only how each is cut off and how many there are.
- Movement: NearlyEqual is exact equality; whether a key is pressed is a parameter; the TopDownMovement header is not part of this model, so its constructor defaults (all flags false, zero vectors) are assumed; math's Sign is taken as -1, 0 or 1.
- Noise: float evaluation of gradient and value noise is left out; the value-coordinate scaling is modelled over reals.
- TweeningEffects.ShakeEffect.Update: it uses the corrected sole-shake test (trauma > 0, see Findings), so it does not promise the as-written behaviour of never dropping a sole shake; that behaviour is ShakeStepAsWritten.
- ShaderText.ParseShaderSources: it starts each block's code at the end of its marker's match (see Findings), so it does not promise the as-written start of marker plus 6 plus the name's length; that start is ParseShaderSourcesAsWritten.
- Noise.ValueFromHash: the bound below 1 holds over reals; in single-precision float the largest hash rounds to exactly 1.0f, which the model does not capture.
- ShaderLayout.AddShaderLayout: only the desktop build is modelled; the Emscripten build's branch (engine/src/renderer/material/shader.cpp:273-278), which injects a layout only for a vertex shader's `in` declarations, is selected at compile time and is not modelled.
- InjectShaderPreamble (engine/src/renderer/material/shader.cpp:156-212) is left out: it checks and inserts the `#version`, `#extension` and precision lines through regular expressions and build-time branches, and is a preprocessing step outside the modelled parser and layout pass.
- RenderEngine.RenderData.Flush: the post-processing pass (engine/src/renderer/render_data.cpp:1061-1082) and the intermediate render target (1087-1113) are GL work and are not modelled; the batch's draw is logged as FlushedBatch.
- DiceGrid.Grid.AddTiles requires a non-empty sequence: its only caller checks size() > 0, and unsigned size() - 1 would underflow otherwise.
- DiceGrid.BuildSequence requires a non-zero first direction; no caller passes a zero roll.

## Findings

| source | as written | input that shows it | evidently intended | confidence | as-written member | corrected member |
|---|---|---|---|---|---|---|
| engine/src/scene/scene_manager.h:307-317 | Overlay takes `IndexById(entries_.back().id)` after ResortByZ, i.e. the entry now last in z order | an overlay at z -1 under a running scene: the running scene is addressed and the overlay stays Entering (same code in engine/src/world/scene/scene_manager.h:296-300) | address the entry just created | high (not executed) | SceneOps.OverlayBelowTopAsWritten | SceneOps.OverlayEntersNewScene |
| engine/src/scene/scene_manager.h:379-406 | runs keep their entry indices across ResortByZ and Compact | Switch A; Switch B with a 0.1 s slide; Overlay O at z 100 with a 10 s slide; one 0.5 s step leaves a run pointing past the end | remap the run indices with their entries | high (not executed) | SceneOps.StaleRunAsWritten | SceneOps.RemapRunDesignatesSame |
| src/utility/tween.cpp:525-536 | the erase loops work on local copies of the containers | any finished destroy-on-complete tween: the manager still holds it | erase from the manager's own vector and map | high (not executed) | TweenHandles.TweenManager.UpdateAsWritten | TweenHandles.UnfinishedDrops |
| src/tweening/tween_effects.cpp:79-92 | an empty queue detaches the component and `return`s from the system | two entities, the first with an empty queue and the second with a completed task: the second is not updated (same in src/tweens/tween_effects.cpp:86-99) | `continue` with the next entity | high (not executed) | TweeningEffects.SkippedAfterEmptyAsWritten | TweeningEffects.UpdateSystem |
| src/tweening/tween_effects.cpp:286-290 | a finished sole shake is kept while `trauma >= 0`, which the clamp to [0, 1] makes always true | one finished shake with trauma decayed to 0: it is never dropped (same in src/tweens/tween_effects.cpp:292-296) | keep it only while trauma > 0 | high (not executed) | TweeningEffects.SoleShakeStaysAsWritten | TweeningEffects.SoleShakeEnds |
| engine/src/ui/dialogue.cpp:163-170 | the current line is `index mod size`, asserted to be used | in order, after the first pick `index` has moved on to the next, unused line, so the assertion fails | the line last picked | high (not executed) | Dialogues.SequentialCurrentLineAsWritten | Dialogues.Dialogue.CurrentLineIndex |
| engine/src/renderer/render_data.cpp:612-630 | an open line draws `count` segments from i to (i + 1) mod (count - 1) | three open points draw (0,1), (1,0), (2,1) | count - 1 segments from i to i + 1 | high (not executed) | RenderEngine.OpenLinesAsWritten | RenderEngine.LineSegments |
| engine/src/renderer/render_data.cpp:682-712 | the texture index is chosen before AddVertices, whose capacity flush empties the texture list | one texture in a batch with a full vertex buffer: a new texture gets index 2 while it becomes the only texture | choose the index after the flush | medium (not executed) | RenderEngine.StaleTextureIndexAsWritten | RenderEngine.RenderData.AddTexturedQuad |
| engine/src/renderer/material/shader.cpp:116-118 | the code starts at the marker plus the length of "#type " plus the name, assuming exactly one space | "#type  vertex\ncode": the code keeps the name's last letter and a newline (same in engine/src/renderer/gl/gl_context.cpp:170-171) | start at the end of the regex match | medium (not executed) | ShaderText.TwoSpacesAsWritten | ShaderText.CodeStartsAgree |
| demos/broadphase/src/application.cpp:274-312 | a median split whose lower side is empty recurses on all the objects again | two objects with the same box, more than the per-node limit: the recursion never shrinks (same in SplitNodeExternal, 476-530) | stop splitting when one side is empty | high (not executed) | Broadphase.TwinBoxesNeverBuildAsWritten | Broadphase.BuildTreeHolds |
| demos/broadphase/src/application.cpp:274-312 | the same split leaves the node without a left child when the recursion does end | centres (0,0), (0,1) and (1,2) with two per leaf: the root has no left child, and a later insertion centred at x < 0 is dropped (440-457) | keep such objects in a leaf, so that every inner node has both children | medium (not executed) | Broadphase.SkewedInsertDropped | Broadphase.BuildTreeHolds |
| demos/broadphase/src/application.cpp:393-422 | RemoveFromTree descends by the entity's current box in entity_map | an object moved across the split is not found and stays live beside its new copy; a removed entity gives up at the root and is still reported | find the entity's copies by its old position, or search every leaf | high (not executed) | Broadphase.MovedAcrossSplitAsWritten | Broadphase.RemoveEntityCopies |
| src/tweens/tween_effects.cpp:397-443 | on a path, the reached-waypoint test advances current_waypoint but target_pos keeps the reached waypoint, and the velocity (and lerp) stop test then measures against it | waypoints (0,0) and (100,0), stop distance 1, entity at (0,0.5): the task is dropped instead of heading to (100,0) | test the stop distance only when following a target, so the path runs to its last waypoint | high (not executed) | TweensEffects.PathEndsAtReachedWaypoint | TweensEffects.IntendedPathAdvances |
