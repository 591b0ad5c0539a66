/** The public Load and Unload of a scene reference (Runtime/SceneReference.cs),
    which hand the reference to the coordinator. */
module SceneReference {
  import opened Wrappers
  import opened Scenes
  import opened SceneSystem

  /** Load: the reference passes itself and its own configured mode. The
      history flags of the coordinator's entry point are the caller's. */
  function Load(c: Coordinator, host: Host, h: Handle, clearHistory: bool, addToHistory: bool): (r: Outcome)
    ensures r.status != Rejected(NullScene)
    ensures r.status == Rejected(EmptyName) <==> !HasName(h)
    ensures r.status == Rejected(AlreadyLoaded) <==>
      HasName(h) && h.mode == Additive && GetSceneState(c, host, h) in {Loaded, Loading}
    ensures r.status == Started ==> r.coord.jobs == c.jobs + [Job(LoadJob(h.mode), h)]
  {
    LoadScene(c, host, Some(h), h.mode, clearHistory, addToHistory)
  }

  /** Unload: the reference passes itself unchanged. */
  function Unload(c: Coordinator, host: Host, h: Handle): (r: Outcome)
    ensures r.status == Started <==> HasName(h) && GetSceneState(c, host, h) == Loaded
    ensures r.status.Rejected? ==> r.coord == c
    ensures r.status == Started ==> r.coord.jobs == c.jobs + [Job(UnloadJob, h)]
  {
    UnloadScene(c, host, Some(h))
  }
}
