/** The scene-transition coordinator (Runtime/SceneSystem.cs): an immutable
    record and pure transition functions over it. */
module SceneSystem {
  import opened Wrappers
  import opened Scenes
  import opened Tracker
  import History

  /** What the coordinator asks of Unity: whether the application is in play
      mode, and the names SceneManager reports as valid and loaded. */
  datatype Host = Host(playing: bool, loaded: set<string>)

  datatype JobKind = LoadJob(mode: Mode) | UnloadJob

  /** A LoadAsync or UnloadAsync coroutine, suspended at its yield. */
  datatype Job = Job(kind: JobKind, scene: Handle)

  /** The coordinator. `loading` and `unloading` are the in-flight name lists,
      `states` the State attribute of each reference (absent means NotLoaded),
      `jobs` the running coroutines and `trace` every event fired so far. */
  datatype Coordinator = Coordinator(
    history: History.Stack,
    loading: seq<string>,
    unloading: seq<string>,
    states: map<Handle, SceneState>,
    jobs: seq<Job>,
    trace: seq<Event>)

  /** Why a request was turned away (each is a logged error or warning). */
  datatype Rejection = NullScene | EmptyName | AlreadyLoaded | NotLoadedYet

  datatype Status = Started | Rejected(why: Rejection)

  datatype Outcome = Outcome(coord: Coordinator, status: Status)

  /** The result of LoadPreviousScene: false without a previous entry; true
      once the previous entry has been handed to LoadScene; or a
      NullReferenceException when that entry is a null reference. */
  datatype Previous = NoPrevious | Reloaded(status: Status) | NullPrevious

  datatype PreviousOutcome = PreviousOutcome(coord: Coordinator, result: Previous)

  /** A fresh coordinator: empty history and lists, every reference NotLoaded. */
  function Initial(): (c: Coordinator)
    ensures c.history.entries == [] && c.history.start.None?
    ensures forall h :: StateOf(c, h) == NotLoaded
    ensures c.loading == [] && c.unloading == [] && c.jobs == [] && c.trace == []
  {
    Coordinator(History.Stack([], None), [], [], map[], [], [])
  }

  /** The State attribute of a reference. */
  function StateOf(c: Coordinator, h: Handle): SceneState
  {
    if h in c.states then c.states[h] else NotLoaded
  }

  /** `List<string>.Contains` on the reference's name (its string conversion). */
  predicate Listed(key: Option<string>, names: seq<string>)
  {
    key.Some? && key.value in names
  }

  /** SceneManager.GetSceneByName(name) is valid and loaded. */
  predicate HostReportsLoaded(host: Host, key: Option<string>)
  {
    key.Some? && key.value in host.loaded
  }

  /** GetSceneState: a classification by name with a fixed priority. */
  function GetSceneState(c: Coordinator, host: Host, h: Handle): (r: SceneState)
    ensures r == Unloading <==> host.playing && Listed(h.name, c.unloading)
    ensures r == Loading <==>
      host.playing && !Listed(h.name, c.unloading) && Listed(h.name, c.loading)
    ensures r == Loaded <==>
      && host.playing
      && !Listed(h.name, c.unloading) && !Listed(h.name, c.loading)
      && HostReportsLoaded(host, h.name)
  {
    if !host.playing then NotLoaded
    else if Listed(h.name, c.unloading) then Unloading
    else if Listed(h.name, c.loading) then Loading
    else if HostReportsLoaded(host, h.name) then Loaded
    else NotLoaded
  }

  function ProgressKind(k: JobKind): EventKind
  {
    if k.LoadJob? then LoadProgress else UnloadProgress
  }

  function DoneKind(k: JobKind): EventKind
  {
    if k.LoadJob? then LoadDone else UnloadDone
  }

  /** The reference's name is in the in-flight list its coroutine kind uses. */
  predicate TrackedFor(c: Coordinator, k: JobKind, h: Handle)
  {
    if k.LoadJob? then Listed(h.name, c.loading) else Listed(h.name, c.unloading)
  }

  /** The State a finished coroutine leaves behind. */
  function Settled(k: JobKind): SceneState
  {
    if k.LoadJob? then Loaded else NotLoaded
  }

  /** The part of LoadAsync before its first yield: State becomes Loading and
      the name joins the loading list before LoadStart fires. */
  function BeginLoad(c: Coordinator, h: Handle, mode: Mode): (r: Coordinator)
    requires HasName(h)
    ensures r.history == c.history && r.unloading == c.unloading
    ensures r.loading == c.loading + [h.name.value]
    ensures StateOf(r, h) == Loading
    ensures forall g :: g != h ==> StateOf(r, g) == StateOf(c, g)
    ensures r.jobs == c.jobs + [Job(LoadJob(mode), h)]
    ensures r.trace == c.trace + [Event(LoadStart, h, Loading, true)]
  {
    var marked := c.(states := c.states[h := Loading], loading := c.loading + [h.name.value]);
    marked.(trace := c.trace + [Event(LoadStart, h, StateOf(marked, h), TrackedFor(marked, LoadJob(mode), h))],
            jobs := c.jobs + [Job(LoadJob(mode), h)])
  }

  /** The part of UnloadAsync before its first yield. */
  function BeginUnload(c: Coordinator, h: Handle): (r: Coordinator)
    requires HasName(h)
    ensures r.history == c.history && r.loading == c.loading
    ensures r.unloading == c.unloading + [h.name.value]
    ensures StateOf(r, h) == Unloading
    ensures forall g :: g != h ==> StateOf(r, g) == StateOf(c, g)
    ensures r.jobs == c.jobs + [Job(UnloadJob, h)]
    ensures r.trace == c.trace + [Event(UnloadStart, h, Unloading, true)]
  {
    var marked := c.(states := c.states[h := Unloading], unloading := c.unloading + [h.name.value]);
    marked.(trace := c.trace + [Event(UnloadStart, h, StateOf(marked, h), TrackedFor(marked, UnloadJob, h))],
            jobs := c.jobs + [Job(UnloadJob, h)])
  }

  /** One poll of a running coroutine, `done` being the host's answer to
      `operation == null || operation.isDone`. Not done: one progress event,
      nothing else changes. Done: State settles, then the Done event fires and
      the coroutine ends. The name stays in its list; only the host callback
      removes it. */
  function Tick(c: Coordinator, i: nat, done: bool): (r: Coordinator)
    requires i < |c.jobs|
    ensures !done ==> r == c.(trace := c.trace + [Event(ProgressKind(c.jobs[i].kind), c.jobs[i].scene,
                                                         StateOf(c, c.jobs[i].scene), TrackedFor(c, c.jobs[i].kind, c.jobs[i].scene))])
    ensures done ==>
      var job := c.jobs[i];
      && r.history == c.history && r.loading == c.loading && r.unloading == c.unloading
      && StateOf(r, job.scene) == Settled(job.kind)
      && (forall g :: g != job.scene ==> StateOf(r, g) == StateOf(c, g))
      && r.jobs == c.jobs[..i] + c.jobs[i + 1..]
      && r.trace == c.trace + [Event(DoneKind(job.kind), job.scene, Settled(job.kind), TrackedFor(c, job.kind, job.scene))]
  {
    var job := c.jobs[i];
    if !done then
      c.(trace := c.trace + [Event(ProgressKind(job.kind), job.scene, StateOf(c, job.scene), TrackedFor(c, job.kind, job.scene))])
    else
      var settled := c.(states := c.states[job.scene := Settled(job.kind)]);
      settled.(trace := c.trace + [Event(DoneKind(job.kind), job.scene, StateOf(settled, job.scene),
                                         TrackedFor(settled, job.kind, job.scene))],
               jobs := c.jobs[..i] + c.jobs[i + 1..])
  }

  /** The host callback OnSceneLoaded: one copy of the name leaves the loading
      list and nothing else changes. */
  function OnSceneLoaded(c: Coordinator, name: string): (r: Coordinator)
    ensures r.(loading := c.loading) == c
    ensures name !in c.loading ==> r == c
    ensures name in c.loading ==> |r.loading| == |c.loading| - 1
    ensures multiset(r.loading) == multiset(c.loading) - multiset{name}
  {
    RemoveFirstCount(c.loading, name);
    c.(loading := RemoveFirst(c.loading, name))
  }

  /** The host callback OnSceneUnloaded, symmetric to OnSceneLoaded. */
  function OnSceneUnloaded(c: Coordinator, name: string): (r: Coordinator)
    ensures r.(unloading := c.unloading) == c
    ensures name !in c.unloading ==> r == c
    ensures name in c.unloading ==> |r.unloading| == |c.unloading| - 1
    ensures multiset(r.unloading) == multiset(c.unloading) - multiset{name}
  {
    RemoveFirstCount(c.unloading, name);
    c.(unloading := RemoveFirst(c.unloading, name))
  }

  /** LoadScene(scene, mode, clearHistory, addToHistory). */
  function LoadScene(c: Coordinator, host: Host, scene: Option<Handle>, mode: Mode,
                     clearHistory: bool, addToHistory: bool): (r: Outcome)
    ensures r.status == Rejected(NullScene) <==> scene.None?
    ensures r.status == Rejected(EmptyName) <==> scene.Some? && !HasName(scene.value)
    ensures r.status == Rejected(AlreadyLoaded) <==>
      && scene.Some? && HasName(scene.value) && mode == Additive
      && GetSceneState(c, host, scene.value) in {Loaded, Loading}
    ensures r.status != Rejected(NotLoadedYet)
    ensures r.status.Rejected? ==> r.coord == c
    ensures r.status == Started ==>
      var h := scene.value;
      && HasName(h)
      && r.coord.history == History.Bookkeep(c.history, h, clearHistory, addToHistory)
      && r.coord.loading == c.loading + [h.name.value]
      && r.coord.unloading == c.unloading
      && StateOf(r.coord, h) == Loading
      && (forall g :: g != h ==> StateOf(r.coord, g) == StateOf(c, g))
      && r.coord.jobs == c.jobs + [Job(LoadJob(mode), h)]
      && r.coord.trace == c.trace + [Event(LoadStart, h, Loading, true)]
  {
    match scene
    case None => Outcome(c, Rejected(NullScene))
    case Some(h) =>
      if !HasName(h) then Outcome(c, Rejected(EmptyName))
      else if mode == Additive && GetSceneState(c, host, h) in {Loaded, Loading} then
        Outcome(c, Rejected(AlreadyLoaded))
      else
        var kept := c.(history := History.Bookkeep(c.history, h, clearHistory, addToHistory));
        Outcome(BeginLoad(kept, h, mode), Started)
  }

  /** UnloadScene(scene). */
  function UnloadScene(c: Coordinator, host: Host, scene: Option<Handle>): (r: Outcome)
    ensures r.status == Rejected(NullScene) <==> scene.None?
    ensures r.status == Rejected(EmptyName) <==> scene.Some? && !HasName(scene.value)
    ensures r.status == Rejected(NotLoadedYet) <==>
      scene.Some? && HasName(scene.value) && GetSceneState(c, host, scene.value) != Loaded
    ensures r.status != Rejected(AlreadyLoaded)
    ensures r.status.Rejected? ==> r.coord == c
    ensures r.status == Started ==>
      var h := scene.value;
      && HasName(h)
      && r.coord.history == c.history
      && r.coord.loading == c.loading
      && r.coord.unloading == c.unloading + [h.name.value]
      && StateOf(r.coord, h) == Unloading
      && (forall g :: g != h ==> StateOf(r.coord, g) == StateOf(c, g))
      && r.coord.jobs == c.jobs + [Job(UnloadJob, h)]
      && r.coord.trace == c.trace + [Event(UnloadStart, h, Unloading, true)]
  {
    match scene
    case None => Outcome(c, Rejected(NullScene))
    case Some(h) =>
      if !HasName(h) then Outcome(c, Rejected(EmptyName))
      else if GetSceneState(c, host, h) != Loaded then Outcome(c, Rejected(NotLoadedYet))
      else Outcome(BeginUnload(c, h), Started)
  }

  /** LoadPreviousScene: drop the current (last) entry, then reload the new
      last entry in Single mode without adding it to the history again. */
  function LoadPreviousScene(c: Coordinator, host: Host): (r: PreviousOutcome)
    ensures r.result.NoPrevious? <==> |c.history.entries| <= 1
    ensures r.result.NoPrevious? ==> r.coord == c
    ensures !r.result.NoPrevious? ==>
      var n := |c.history.entries|;
      var popped := c.history.entries[..n - 1];
      var previous := c.history.entries[n - 2];
      && (r.result.NullPrevious? <==> previous.None?)
      && (r.result.NullPrevious? ==> r.coord == c.(history := c.history.(entries := popped)))
      && (r.result.Reloaded? ==>
            && (r.result.status == Started <==> HasName(previous.value))
            && (r.result.status.Rejected? ==> r.coord == c.(history := c.history.(entries := popped)))
            && (r.result.status == Started ==>
                  && r.coord.history.start == c.history.start
                  && r.coord.history.entries ==
                       (if !previous.value.clearHistoryOnLoad then popped
                        else if c.history.start.Some? then [c.history.start]
                        else [])
                  && r.coord.loading == c.loading + [previous.value.name.value]
                  && r.coord.unloading == c.unloading
                  && StateOf(r.coord, previous.value) == Loading
                  && (forall g :: g != previous.value ==> StateOf(r.coord, g) == StateOf(c, g))
                  && r.coord.jobs == c.jobs + [Job(LoadJob(Single), previous.value)]
                  && r.coord.trace == c.trace + [Event(LoadStart, previous.value, Loading, true)]))
  {
    var n := |c.history.entries|;
    if n > 1 then
      var popped := c.(history := c.history.(entries := c.history.entries[..n - 1]));
      var previous := popped.history.entries[n - 2];
      match previous
      case None => PreviousOutcome(popped, NullPrevious)
      case Some(h) =>
        var o := LoadScene(popped, host, previous, Single, h.clearHistoryOnLoad, false);
        PreviousOutcome(o.coord, Reloaded(o.status))
    else
      PreviousOutcome(c, NoPrevious)
  }

  /** The boolean LoadPreviousScene returns when it does not throw. */
  predicate Succeeded(p: Previous)
  {
    p.Reloaded?
  }

  /** SetStartScene: only the history changes. */
  function SetStartScene(c: Coordinator, scene: Option<Handle>): (r: Coordinator)
    ensures r.(history := c.history) == c
    ensures r.history == History.SetStart(c.history, scene)
    ensures scene == c.history.start ==> r == c
    ensures r.history.start == scene
    ensures scene != c.history.start ==> |r.history.entries| > 0 && r.history.entries[0] == scene
  {
    c.(history := History.SetStart(c.history, scene))
  }

  /** The static ClearHistory: a no-op outside play mode. */
  function ClearHistory(c: Coordinator, host: Host): (r: Coordinator)
    ensures r.(history := c.history) == c
    ensures !host.playing ==> r == c
    ensures host.playing && c.history.start.Some? ==> r.history.entries == [c.history.start]
    ensures host.playing && c.history.start.None? ==> r.history.entries == []
  {
    if !host.playing then c else c.(history := History.Clear(c.history))
  }

  /** The static GetHistory: a copy of the history, empty outside play mode. */
  function GetHistory(c: Coordinator, host: Host): (r: seq<Option<Handle>>)
    ensures host.playing ==> r == c.history.entries
    ensures !host.playing ==> r == []
  {
    if host.playing then c.history.entries else []
  }
}
