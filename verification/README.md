# Scene system coordinator, modelled in Dafny

This project models the scene-transition coordinator of a Unity scene system
(`Runtime/SceneSystem.cs`) and the scene reference it works on
(`Runtime/SceneReference.cs`). The coordinator decides whether a load or unload
request may start, keeps the navigation history with its pinned start scene,
classifies a scene's state from its in-flight name lists, and runs each
transition as a coroutine that fires Start, Progress and Done events.

Everything is a pure function over an immutable record:

- `Scenes` (scenes.dfy): scene references (`Handle`: an identity, an optional
  name, the configured `Mode` and `clearHistoryOnLoad`), `SceneState` and the
  lifecycle `Event`s. Each event records the State a subscriber would read when
  it fires.
- `Tracker` (tracker.dfy): `List<string>.Remove`, which takes out only the
  first copy of a name.
- `History` (history.dfy): the history list and start scene, with
  AddToHistory, ClearSceneHistory, LoadScene's clear-then-add bookkeeping and
  SetStartScene.
- `SceneSystem` (scene_system.dfy): the `Coordinator` record. It holds the
  history, the loading and unloading name lists, each reference's State, the
  running coroutines and the event trace. The module defines GetSceneState,
  LoadScene, UnloadScene, LoadPreviousScene, SetStartScene, ClearHistory and
  GetHistory. It also defines the coroutine steps: `BeginLoad` and
  `BeginUnload` run up to the first yield, and each `Tick` is one poll of the
  host. The host callbacks are `OnSceneLoaded` and `OnSceneUnloaded`.
- `Lifecycle` (lifecycle.dfy): every step as one `Step` type, and the
  invariant all steps keep. The invariant says the start scene, once set, is
  the root of the history; only validated names are tracked; and coroutines run
  only for named references. The module also gives the event order of a whole
  transition and the history scenarios.
- `SceneReference` (scene_reference.dfy): a reference's own `Load` and
  `Unload`, which forward to the coordinator.

Unity is a parameter. `Host` says whether the application is in play mode and
which scene names `SceneManager` reports as valid and loaded. Each coroutine
poll takes the host's "is the operation done" answer as an argument.

Notes on the code's behaviour:

- There is no "allow duplicate" flag. An additive load of a reference whose name
  is loaded or loading is always rejected.
- A finished load does not remove the name from the loading list. Only the
  host's `sceneLoaded` callback does that (`SceneSystem.cs:120-124`). Unloads
  work the same way.
- The history does not hold only Single-mode references. SetStartScene puts any
  reference at its root, including a null one. A null entry then makes
  LoadPreviousScene throw after it has already removed the last entry
  (`Previous.NullPrevious`).
- LoadPreviousScene returns false only when the history has at most one entry.
  When the reload is rejected, the removal of the last entry stays.

## Model

| member | source | states |
|---|---|---|
| Tracker.RemoveFirst | Runtime/SceneSystem.cs:113-124 | `List.Remove` leaves the list unchanged when the name is absent, and otherwise cuts out exactly its first occurrence |
| Tracker.RemoveFirstCount | Runtime/SceneSystem.cs:113-124 | removal takes exactly one copy of the name out of the list's multiset, and none when there is none |
| History.Add | Runtime/SceneSystem.cs:181-197 | the history grows by exactly one entry, this reference, with the old entries kept as a prefix, unless the reference's own mode is not Single or it is the start scene already at index 0; the start scene stays the root |
| History.Clear | Runtime/SceneSystem.cs:200-209 | afterwards the history is the start scene alone when one is set, and empty otherwise |
| History.ClearIdempotent | Runtime/SceneSystem.cs:200-209 | clearing twice is the same as clearing once |
| History.Bookkeep | Runtime/SceneSystem.cs:261-269 | clear first, then add: with neither flag nothing changes; clear alone gives the cleared history; add alone appends exactly this reference unless AddToHistory's skip cases hold, in which case nothing changes; both flags add to the cleared history; without clearing the old history is a prefix of the new one; the start scene is kept and stays the root |
| History.ClearThenAdd | Runtime/SceneSystem.cs:261-269 | because clearing comes first, a Single-mode reference B other than start scene A, loaded with both flags, yields exactly [A, B]; the start scene itself yields [A] |
| History.ClearThenAddWithoutStart | Runtime/SceneSystem.cs:261-269 | with no start scene, both flags yield [B] for a Single-mode B and an empty history for an Additive one |
| History.SetStart | Runtime/SceneSystem.cs:332-363 | a no-op for the current start scene; otherwise the new start scene sits at index 0. It replaces an old-start head in place (same length, same tail), is inserted before any other head (old entries shifted right), or is the only entry of an empty history |
| History.SetStartIdempotent | Runtime/SceneSystem.cs:334-338 | setting the same start scene twice equals setting it once |
| SceneSystem.Initial | Runtime/SceneSystem.cs:49-52 | a fresh coordinator has no history and no start scene, empty loading and unloading lists, no running coroutine and no fired event, and every reference's State is NotLoaded (the State default of Runtime/SceneReference.cs line 32) |
| SceneSystem.GetSceneState | Runtime/SceneSystem.cs:373-399 | the priority order: NotLoaded outside play mode; Unloading exactly when the name is in the unloading list; else Loading exactly when it is in the loading list; else Loaded exactly when the host reports it loaded; else NotLoaded |
| SceneSystem.BeginLoad | Runtime/SceneSystem.cs:127-137 | State is Loading and the name is appended to the loading list before LoadStart fires: the event records that its subscribers read State Loading and find the name listed; no other reference's State changes |
| SceneSystem.BeginUnload | Runtime/SceneSystem.cs:154-164 | State is Unloading and the name is appended to the unloading list before UnloadStart fires: the event records State Unloading and the name listed |
| SceneSystem.Tick | Runtime/SceneSystem.cs:139-177 | a poll that is not done fires one progress event and changes nothing else; a done poll settles State (Loaded or NotLoaded) before the Done event, ends the coroutine, and leaves the name lists alone |
| SceneSystem.OnSceneLoaded | Runtime/SceneSystem.cs:120-124 | one occurrence of the name leaves the loading list and nothing else changes |
| SceneSystem.OnSceneUnloaded | Runtime/SceneSystem.cs:113-117 | one occurrence of the name leaves the unloading list and nothing else changes |
| SceneSystem.LoadScene | Runtime/SceneSystem.cs:232-272 | rejected, with nothing changed, exactly when the reference is null, its name is null or empty, or the mode is Additive and the reported state is Loaded or Loading; otherwise the history is cleared then added to, State becomes Loading, the name is listed and one LoadStart fires |
| SceneSystem.UnloadScene | Runtime/SceneSystem.cs:278-304 | starts an unload exactly for a non-null reference with a non-empty name whose reported state is Loaded; any rejection changes nothing; the history is untouched |
| SceneSystem.LoadPreviousScene | Runtime/SceneSystem.cs:311-326 | does nothing exactly when the history has at most one entry. Otherwise the last entry is removed, and stays removed even when the reload is rejected or the new last entry is null. A started reload re-adds nothing: the history is the popped one, or only the start scene when the entry's clear flag is set; it appends the entry's name to the loading list, sets its State to Loading and fires one LoadStart |
| SceneSystem.SetStartScene | Runtime/SceneSystem.cs:332-363 | only the history changes, and exactly as History.SetStart states: nothing at all changes when the reference already is the start scene; otherwise it becomes the start scene and heads the history, replacing an old-start head in place or being inserted before any other head |
| SceneSystem.ClearHistory | Runtime/SceneSystem.cs:405-414 | outside play mode nothing changes; in play mode only the start scene, if any, remains |
| Lifecycle.Apply | Runtime/SceneReference.cs:32 | only starting or finishing a coroutine writes a reference's State; only the history operations change the history |
| Lifecycle.NamesLeaveOnlyByCallback | Runtime/SceneSystem.cs:113-124 | a name leaves the loading list only through the sceneLoaded callback and the unloading list only through sceneUnloaded: every other step keeps the old list as a prefix |
| Lifecycle.InitialInv | Runtime/SceneSystem.cs:49-52 | the fresh coordinator satisfies the invariant |
| Lifecycle.InvPreserved | Runtime/SceneSystem.cs:181-363 | every step keeps the invariant: a set start scene is the history's root, no empty name is tracked, every running coroutine's reference has a name |
| Lifecycle.Run | Runtime/SceneSystem.cs:232-363 | any sequence of steps, each taken against the host as it is at that step, from a coordinator satisfying the invariant ends in one that satisfies it |
| Lifecycle.Ticks | Runtime/SceneSystem.cs:139-145 | n unfinished polls append n progress events for that coroutine and change nothing else |
| Lifecycle.RunLoad | Runtime/SceneSystem.cs:127-151 | an uninterrupted accepted load fires LoadStart (State Loading), then one LoadProgress per unfinished poll (State Loading), then LoadDone (State Loaded), each with the name listed as loading; it is still listed afterwards |
| Lifecycle.RunUnload | Runtime/SceneSystem.cs:154-178 | the same order for unloads: UnloadStart and UnloadProgress see Unloading, UnloadDone sees NotLoaded; the history is untouched |
| Lifecycle.LoadThenCallbackRestoresList | Runtime/SceneSystem.cs:120-124 | a whole load followed by the host's sceneLoaded callback leaves the loading list's contents as they were |
| Lifecycle.UnloadingWins | Runtime/SceneSystem.cs:381-384 | in play mode a name in the unloading list reads Unloading, whatever the loading list and the host say |
| Lifecycle.StateIsByName | Runtime/SceneReference.cs:137-149 | the reported state depends only on the name, because the string conversion used for the lookups is the name |
| Lifecycle.NoSecondAdditiveLoad | Runtime/SceneSystem.cs:248-259 | in play mode, once an additive load has started, another additive load of any reference with that name is rejected as a duplicate, unless the name is being unloaded |
| Lifecycle.HistoryIgnoresRequestedMode | Runtime/SceneSystem.cs:181-197 | the history after an accepted load depends on the reference's own mode only, not on the mode passed to LoadScene |
| Lifecycle.PreviousSucceeds | Runtime/SceneSystem.cs:311-326 | LoadPreviousScene returns true exactly when there is a previous entry that is not null; the reload it starts is accepted exactly when that entry has a name |
| Lifecycle.PreviousShortens | Runtime/SceneSystem.cs:311-326 | whenever there is a previous entry, going back strictly shortens the history |
| Lifecycle.PreviousWithClearForgetsIt | Runtime/SceneSystem.cs:318-320 | going back to a named entry with the clear flag, other than the start scene, starts the reload and leaves the history as only the start scene, which no longer contains the reloaded entry |
| Lifecycle.HistoryRoundTrip | Runtime/SceneSystem.cs:181-209 | SetStartScene(A) on an empty history gives [A]; loading a Single-mode B with addToHistory then gives [A, B]; ClearHistory gives [A] |
| Lifecycle.MenuLevelBack | Runtime/SceneSystem.cs:311-326 | after loading Menu and then Level1 (both Single, added), the history is [Menu, Level1]; going back reloads Menu in Single mode and leaves [Menu] |
| SceneReference.Load | Runtime/SceneReference.cs:122-125 | the reference forwards itself with its own configured mode: never a null-reference rejection, a duplicate rejection only for an Additive-mode reference, and the started coroutine uses the reference's mode |
| SceneReference.Unload | Runtime/SceneReference.cs:131-134 | forwards the reference unchanged: an unload starts exactly when it has a name and reads Loaded |

## Left out

- Singleton plumbing is not modelled. This covers the lazy creation of the coordinator object, its subscription to and from `SceneManager`, and `OnDestroy`. The coordinator is an explicit value instead.
- `Debug.Log`, `LogWarning` and `LogError` calls are not modelled. Their choice of message is reflected in the `Rejection` value.
- Coroutine scheduling is not modelled. `StartCoroutine` runs the body up to its first yield inside the call. The model runs the part before the host request inside `LoadScene`/`UnloadScene`, and makes the same-frame poll the first `Tick`.
- The float progress values are not recorded, because they are Unity's own. Their ordering, which the host guarantees, is not modelled either.
- The load mode handed to `SceneManager.LoadSceneAsync` is kept only in the coroutine record. The host's actual loading of scene content is outside the model.
- Subscriber callback bodies and exceptions thrown by subscribers are not modelled. Only the firing of each event is recorded.
- Unity's overloaded `==` and `bool` conversion treat a destroyed object as null. References are never destroyed here.
- GetSceneState takes a non-null reference, because the source's string conversion throws on null. For a reference with no name, the model takes `SceneManager.GetSceneByName` to report no loaded scene.
- SceneReference.Load targets a two-argument `SceneSystem.LoadScene` that `Runtime/SceneSystem.cs` does not declare. It is modelled as the four-argument entry point with the reference's own mode, and the two history flags are parameters.
- `Mode` and `ClearHistoryOnLoad` are read by `SceneSystem.cs` but not declared in `SceneReference.cs`. They are taken as attributes of the reference.
- `Runtime/SceneReferenceAsset.cs` is folded into the reference's optional name: no asset assigned means a null name.
- The editor inspectors and the thin MonoBehaviour wrappers (`LoadScene`, `LoadPreviousScene`, `SetStartScene` components) are not modelled, because they only forward calls or re-raise events.
