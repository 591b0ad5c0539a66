/** The entities the scene system works on: scene references (handles), their
    load mode and lifecycle state, and the lifecycle events it raises. */
module Scenes {
  import opened Wrappers

  /** Unity's LoadSceneMode. */
  datatype Mode = Single | Additive

  /** The lifecycle state of a scene. */
  datatype SceneState = NotLoaded | Loaded | Loading | Unloading

  /** A scene reference. References are compared by identity, so two
      references with the same settings are still distinct: `id` tells them
      apart. `name` is None when no scene asset is assigned. `mode` and
      `clearHistoryOnLoad` are the reference's configured attributes. */
  datatype Handle = Handle(id: nat, name: Option<string>, mode: Mode, clearHistoryOnLoad: bool)

  /** The reference's name is neither null nor empty. */
  predicate HasName(h: Handle)
  {
    h.name.Some? && h.name.value != ""
  }

  datatype EventKind =
    | LoadStart | LoadProgress | LoadDone
    | UnloadStart | UnloadProgress | UnloadDone

  /** One firing of a lifecycle event: the static event and the reference's
      own event fire together. `seen` is the reference's State at that moment,
      as a subscriber reading it would see it; `listed` says whether the
      reference's name is then in the coordinator's in-flight list for this
      transition (the loading list for load events, the unloading list for
      unload events). The float progress value is not recorded. */
  datatype Event = Event(kind: EventKind, scene: Handle, seen: SceneState, listed: bool)
}
