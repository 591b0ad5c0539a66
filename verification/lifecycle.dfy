/** The coordinator as a state machine: every step a caller, a running
    coroutine or the host can take, the invariant those steps keep, the event
    order of a whole transition, and the history scenarios. */
module Lifecycle {
  import opened Wrappers
  import opened Scenes
  import opened Tracker
  import History
  import opened SceneSystem

  datatype Step =
    | Load(scene: Option<Handle>, mode: Mode, clearHistory: bool, addToHistory: bool)
    | Unload(scene: Option<Handle>)
    | LoadPrevious
    | SetStart(scene: Option<Handle>)
    | Clear
    | Poll(job: nat, done: bool)
    | HostLoaded(name: string)
    | HostUnloaded(name: string)

  /** Steps that may write a reference's State: the ones that start or finish
      a coroutine. */
  predicate WritesState(step: Step)
  {
    step.Load? || step.Unload? || step.LoadPrevious? || (step.Poll? && step.done)
  }

  /** One step. Polling a coroutine that is not running does nothing. */
  function Apply(c: Coordinator, host: Host, step: Step): (r: Coordinator)
    ensures !WritesState(step) ==> forall h :: StateOf(r, h) == StateOf(c, h)
    ensures !step.Load? && !step.LoadPrevious? && !step.SetStart? && !step.Clear? ==>
      r.history == c.history
  {
    match step
    case Load(scene, mode, clear, add) => LoadScene(c, host, scene, mode, clear, add).coord
    case Unload(scene) => UnloadScene(c, host, scene).coord
    case LoadPrevious => LoadPreviousScene(c, host).coord
    case SetStart(scene) => SetStartScene(c, scene)
    case Clear => ClearHistory(c, host)
    case Poll(i, done) => if i < |c.jobs| then Tick(c, i, done) else c
    case HostLoaded(name) => OnSceneLoaded(c, name)
    case HostUnloaded(name) => OnSceneUnloaded(c, name)
  }

  /** A name leaves the loading list only through the host's sceneLoaded
      callback, and the unloading list only through sceneUnloaded: every other
      step keeps the old list as a prefix of the new one. */
  lemma {:induction false} NamesLeaveOnlyByCallback(c: Coordinator, host: Host, step: Step)
    ensures !step.HostLoaded? ==> c.loading <= Apply(c, host, step).loading
    ensures !step.HostUnloaded? ==> c.unloading <= Apply(c, host, step).unloading
  {
    match step
    case Load(scene, mode, clear, add) =>
      var o := LoadScene(c, host, scene, mode, clear, add);
      assert o.status == Started ==> o.coord.loading == c.loading + [scene.value.name.value];
    case Unload(scene) =>
      var o := UnloadScene(c, host, scene);
      assert o.status == Started ==> o.coord.unloading == c.unloading + [scene.value.name.value];
    case LoadPrevious =>
      var p := LoadPreviousScene(c, host);
      if p.result == Reloaded(Started) {
        var n := |c.history.entries|;
        assert p.coord.loading == c.loading + [c.history.entries[n - 2].value.name.value];
      }
    case SetStart(scene) =>
    case Clear =>
    case Poll(i, done) =>
    case HostLoaded(name) =>
    case HostUnloaded(name) =>
  }

  /** What every reachable coordinator satisfies: the start scene, once set,
      is the root of the history; only validated names are ever tracked; and
      coroutines run only for references with a name. */
  predicate Inv(c: Coordinator)
  {
    && History.StartIsRoot(c.history)
    && "" !in c.loading
    && "" !in c.unloading
    && forall j :: j in c.jobs ==> HasName(j.scene)
  }

  lemma InitialInv()
    ensures Inv(Initial())
  {
  }

  /** Removing a name never brings in a new one. */
  lemma RemoveFirstKeeps(s: seq<string>, x: string, y: string)
    requires y !in s
    ensures y !in RemoveFirst(s, x)
  {
    RemoveFirstCount(s, x);
    assert multiset(s)[y] == 0;
  }

  lemma {:induction false} InvPreserved(c: Coordinator, host: Host, step: Step)
    requires Inv(c)
    ensures Inv(Apply(c, host, step))
  {
    match step
    case Load(scene, mode, clear, add) =>
    case Unload(scene) =>
    case LoadPrevious =>
      var n := |c.history.entries|;
      if n > 1 {
        var popped := c.(history := c.history.(entries := c.history.entries[..n - 1]));
        assert History.StartIsRoot(popped.history);
        assert Inv(popped);
      }
    case SetStart(scene) =>
    case Clear =>
    case Poll(i, done) =>
      if i < |c.jobs| && done {
        var r := Tick(c, i, done);
        forall j | j in r.jobs
          ensures HasName(j.scene)
        {
          assert j in c.jobs[..i] || j in c.jobs[i + 1..];
        }
      }
    case HostLoaded(name) =>
      RemoveFirstKeeps(c.loading, name, "");
    case HostUnloaded(name) =>
      RemoveFirstKeeps(c.unloading, name, "");
  }

  /** Any sequence of steps from a coordinator that satisfies the invariant
      ends in one that satisfies it. Each step is taken against the host as
      it is at that moment. */
  function Run(c: Coordinator, steps: seq<(Host, Step)>): (r: Coordinator)
    requires Inv(c)
    ensures Inv(r)
    decreases |steps|
  {
    if |steps| == 0 then c
    else
      InvPreserved(c, steps[0].0, steps[0].1);
      Run(Apply(c, steps[0].0, steps[0].1), steps[1..])
  }

  /** `n` copies of one event. */
  function Repeat(e: Event, n: nat): (r: seq<Event>)
    ensures |r| == n
    ensures forall k :: 0 <= k < n ==> r[k] == e
  {
    if n == 0 then [] else [e] + Repeat(e, n - 1)
  }

  /** `n` polls of coroutine `i` that all find the operation unfinished: one
      progress event each, and nothing else changes. */
  function Ticks(c: Coordinator, i: nat, n: nat): (r: Coordinator)
    requires i < |c.jobs|
    ensures r.(trace := c.trace) == c
    ensures r.trace == c.trace + Repeat(Event(ProgressKind(c.jobs[i].kind), c.jobs[i].scene,
                                              StateOf(c, c.jobs[i].scene), TrackedFor(c, c.jobs[i].kind, c.jobs[i].scene)), n)
    decreases n
  {
    if n == 0 then c
    else
      var e := Event(ProgressKind(c.jobs[i].kind), c.jobs[i].scene,
                     StateOf(c, c.jobs[i].scene), TrackedFor(c, c.jobs[i].kind, c.jobs[i].scene));
      var r := Ticks(Tick(c, i, false), i, n - 1);
      assert c.trace + [e] + Repeat(e, n - 1) == c.trace + Repeat(e, n);
      r
  }

  /** A whole load, with no other step in between: LoadScene accepts it, the
      host reports `polls` times that it is not done, then that it is done. */
  function RunLoad(c: Coordinator, host: Host, h: Handle, mode: Mode,
                   clearHistory: bool, addToHistory: bool, polls: nat): (r: Coordinator)
    requires LoadScene(c, host, Some(h), mode, clearHistory, addToHistory).status == Started
    ensures r.trace == c.trace + [Event(LoadStart, h, Loading, true)]
                              + Repeat(Event(LoadProgress, h, Loading, true), polls)
                              + [Event(LoadDone, h, Loaded, true)]
    ensures StateOf(r, h) == Loaded
    ensures forall g :: g != h ==> StateOf(r, g) == StateOf(c, g)
    ensures r.jobs == c.jobs
    ensures r.loading == c.loading + [h.name.value]
    ensures r.unloading == c.unloading
    ensures r.history == History.Bookkeep(c.history, h, clearHistory, addToHistory)
  {
    var begun := LoadScene(c, host, Some(h), mode, clearHistory, addToHistory).coord;
    var last := |begun.jobs| - 1;
    var polled := Ticks(begun, last, polls);
    assert polled.jobs == begun.jobs;
    var r := Tick(polled, last, true);
    assert begun.jobs[..last] == c.jobs;
    r
  }

  /** A whole unload, with no other step in between. */
  function RunUnload(c: Coordinator, host: Host, h: Handle, polls: nat): (r: Coordinator)
    requires UnloadScene(c, host, Some(h)).status == Started
    ensures r.trace == c.trace + [Event(UnloadStart, h, Unloading, true)]
                              + Repeat(Event(UnloadProgress, h, Unloading, true), polls)
                              + [Event(UnloadDone, h, NotLoaded, true)]
    ensures StateOf(r, h) == NotLoaded
    ensures forall g :: g != h ==> StateOf(r, g) == StateOf(c, g)
    ensures r.jobs == c.jobs
    ensures r.unloading == c.unloading + [h.name.value]
    ensures r.loading == c.loading
    ensures r.history == c.history
  {
    var begun := UnloadScene(c, host, Some(h)).coord;
    var last := |begun.jobs| - 1;
    var polled := Ticks(begun, last, polls);
    assert polled.jobs == begun.jobs;
    var r := Tick(polled, last, true);
    assert begun.jobs[..last] == c.jobs;
    r
  }

  /** After a whole load the host's sceneLoaded callback takes the name back
      out: the loading list holds what it held before. */
  lemma LoadThenCallbackRestoresList(c: Coordinator, host: Host, h: Handle, mode: Mode,
                                     clearHistory: bool, addToHistory: bool, polls: nat)
    requires LoadScene(c, host, Some(h), mode, clearHistory, addToHistory).status == Started
    ensures multiset(OnSceneLoaded(RunLoad(c, host, h, mode, clearHistory, addToHistory, polls), h.name.value).loading)
         == multiset(c.loading)
  {
    var r := RunLoad(c, host, h, mode, clearHistory, addToHistory, polls);
    assert multiset(r.loading) == multiset(c.loading) + multiset{h.name.value};
  }

  /** A name in the unloading list is reported Unloading in play mode, even
      while the host still reports it loaded and even while it is also in the
      loading list. */
  lemma UnloadingWins(c: Coordinator, host: Host, h: Handle)
    requires host.playing && Listed(h.name, c.unloading)
    ensures GetSceneState(c, host, h) == Unloading
  {
  }

  /** The query is by name: two distinct references with one name share
      their reported state. */
  lemma StateIsByName(c: Coordinator, host: Host, g: Handle, h: Handle)
    requires g.name == h.name
    ensures GetSceneState(c, host, g) == GetSceneState(c, host, h)
  {
  }

  /** Once an additive load has started, a second additive load of any
      reference with the same name is turned away while the first is in
      flight (unless that name is being unloaded). */
  lemma NoSecondAdditiveLoad(c: Coordinator, host: Host, h: Handle, g: Handle,
                             clear: bool, add: bool, clear2: bool, add2: bool)
    requires host.playing
    requires LoadScene(c, host, Some(h), Additive, clear, add).status == Started
    requires g.name == h.name
    requires !Listed(h.name, c.unloading)
    ensures var c1 := LoadScene(c, host, Some(h), Additive, clear, add).coord;
            LoadScene(c1, host, Some(g), Additive, clear2, add2).status == Rejected(AlreadyLoaded)
  {
    var c1 := LoadScene(c, host, Some(h), Additive, clear, add).coord;
    assert h.name.value in c1.loading;
    assert GetSceneState(c1, host, g) == Loading;
  }

  /** The history bookkeeping of LoadScene reads the reference's own mode,
      never the mode the caller passes: two accepted loads that differ only in
      the requested mode leave the same history. */
  lemma HistoryIgnoresRequestedMode(c: Coordinator, host: Host, h: Handle, m1: Mode, m2: Mode,
                                    clear: bool, add: bool)
    requires LoadScene(c, host, Some(h), m1, clear, add).status == Started
    requires LoadScene(c, host, Some(h), m2, clear, add).status == Started
    ensures LoadScene(c, host, Some(h), m1, clear, add).coord.history
         == LoadScene(c, host, Some(h), m2, clear, add).coord.history
  {
  }

  /** Whenever LoadPreviousScene does anything, the history gets shorter:
      the reloaded entry is never pushed again. */
  lemma PreviousShortens(c: Coordinator, host: Host)
    requires |c.history.entries| > 1
    ensures |LoadPreviousScene(c, host).coord.history.entries| < |c.history.entries|
  {
  }

  /** LoadPreviousScene returns true exactly when there is a previous entry
      and it is not a null reference (a null one throws instead); the reload
      it starts is then accepted exactly when that entry has a name. */
  lemma PreviousSucceeds(c: Coordinator, host: Host)
    ensures var n := |c.history.entries|;
            Succeeded(LoadPreviousScene(c, host).result) <==> n > 1 && c.history.entries[n - 2].Some?
    ensures var n := |c.history.entries|;
            LoadPreviousScene(c, host).result == Reloaded(Started) <==>
              n > 1 && c.history.entries[n - 2].Some? && HasName(c.history.entries[n - 2].value)
  {
  }

  /** Going back to an entry whose clearHistoryOnLoad flag is set leaves only
      the start scene in the history, so the scene now loading is not in it. */
  lemma PreviousWithClearForgetsIt(c: Coordinator, host: Host, p: Handle)
    requires |c.history.entries| > 1
    requires c.history.entries[|c.history.entries| - 2] == Some(p)
    requires HasName(p) && p.clearHistoryOnLoad
    requires c.history.start.Some? && c.history.start != Some(p)
    ensures var r := LoadPreviousScene(c, host);
            && r.result == Reloaded(Started)
            && r.coord.history.entries == [c.history.start]
            && Some(p) !in r.coord.history.entries
  {
  }

  /** A history round trip: on a coordinator with no history,
      SetStartScene(A) gives [A]; loading B (Single, addToHistory) gives
      [A, B]; ClearHistory gives [A] again. */
  lemma HistoryRoundTrip(c: Coordinator, host: Host, a: Handle, b: Handle)
    requires c.history == History.Stack([], None)
    requires host.playing
    requires a != b && HasName(b) && b.mode == Single
    ensures var c1 := SetStartScene(c, Some(a));
            var o := LoadScene(c1, host, Some(b), Single, false, true);
            && GetHistory(c1, host) == [Some(a)]
            && o.status == Started
            && GetHistory(o.coord, host) == [Some(a), Some(b)]
            && GetHistory(ClearHistory(o.coord, host), host) == [Some(a)]
  {
    var c1 := SetStartScene(c, Some(a));
    var o := LoadScene(c1, host, Some(b), Single, false, true);
    assert o.coord.history == History.Add(c1.history, b);
  }

  /** Menu, then Level1, then back: Menu is reloaded and is the whole history. */
  lemma MenuLevelBack(c: Coordinator, host: Host, menu: Handle, level: Handle)
    requires c.history == History.Stack([], None)
    requires menu != level
    requires HasName(menu) && HasName(level)
    requires menu.mode == Single && level.mode == Single
    requires !menu.clearHistoryOnLoad
    ensures var o1 := LoadScene(c, host, Some(menu), Single, false, true);
            var o2 := LoadScene(o1.coord, host, Some(level), Single, false, true);
            var back := LoadPreviousScene(o2.coord, host);
            && o1.status == Started && o2.status == Started
            && o2.coord.history.entries == [Some(menu), Some(level)]
            && back.result == Reloaded(Started)
            && back.coord.history.entries == [Some(menu)]
            && back.coord.jobs == o2.coord.jobs + [Job(LoadJob(Single), menu)]
  {
    var o1 := LoadScene(c, host, Some(menu), Single, false, true);
    assert o1.coord.history.entries == [Some(menu)];
    var o2 := LoadScene(o1.coord, host, Some(level), Single, false, true);
    assert o2.coord.history.entries == [Some(menu), Some(level)];
  }
}
