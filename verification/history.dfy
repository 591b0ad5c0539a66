/** The navigation history of the scene system: the ordered list of scene
    references (last entry = current scene) and the pinned start scene.
    Entries are optional because a null reference can be made the start scene
    and so enter the list. */
module History {
  import opened Wrappers
  import opened Scenes

  datatype Stack = Stack(entries: seq<Option<Handle>>, start: Option<Handle>)

  /** Once a start scene is set it is the root of the history. */
  predicate StartIsRoot(s: Stack)
  {
    s.start.Some? ==> |s.entries| > 0 && s.entries[0] == s.start
  }

  /** The two cases in which AddToHistory leaves the list alone: the
      reference's own mode is not Single, or it is the start scene and already
      sits at index 0. */
  predicate SkipsAdd(s: Stack, h: Handle)
  {
    || h.mode != Single
    || (Some(h) == s.start && |s.entries| > 0 && s.entries[0] == Some(h))
  }

  /** AddToHistory. */
  function Add(s: Stack, h: Handle): (r: Stack)
    ensures r.start == s.start
    ensures SkipsAdd(s, h) ==> r.entries == s.entries
    ensures !SkipsAdd(s, h) ==>
      && |r.entries| == |s.entries| + 1
      && r.entries[..|s.entries|] == s.entries
      && r.entries[|s.entries|] == Some(h)
    ensures StartIsRoot(s) ==> StartIsRoot(r)
  {
    if h.mode == Single then
      if Some(h) == s.start && |s.entries| > 0 && s.entries[0] == Some(h) then s
      else s.(entries := s.entries + [Some(h)])
    else s
  }

  /** ClearSceneHistory: only the start scene, if one is set, survives. */
  function Clear(s: Stack): (r: Stack)
    ensures r.start == s.start
    ensures s.start.None? ==> r.entries == []
    ensures s.start.Some? ==> |r.entries| == 1
    ensures StartIsRoot(r)
  {
    if s.start.Some? then s.(entries := [s.start]) else s.(entries := [])
  }

  /** The history bookkeeping of LoadScene: clear first, then add. */
  function Bookkeep(s: Stack, h: Handle, clear: bool, add: bool): (r: Stack)
    ensures r.start == s.start
    ensures !clear && !add ==> r == s
    ensures StartIsRoot(s) || clear ==> StartIsRoot(r)
    ensures !clear ==> s.entries <= r.entries
    ensures clear && !add ==> r == Clear(s)
    ensures !clear && add && SkipsAdd(s, h) ==> r == s
    ensures !clear && add && !SkipsAdd(s, h) ==> r.entries == s.entries + [Some(h)]
    ensures clear && add ==> r == Add(Clear(s), h)
  {
    var cleared := if clear then Clear(s) else s;
    if add then Add(cleared, h) else cleared
  }

  /** SetStartScene. */
  function SetStart(s: Stack, h: Option<Handle>): (r: Stack)
    ensures h == s.start ==> r == s
    ensures h != s.start ==> r.start == h && |r.entries| > 0 && r.entries[0] == h
    ensures h != s.start && |s.entries| > 0 && s.entries[0] == s.start ==>
      |r.entries| == |s.entries| && r.entries[1..] == s.entries[1..]
    ensures h != s.start && |s.entries| > 0 && s.entries[0] != s.start ==>
      |r.entries| == |s.entries| + 1 && r.entries[1..] == s.entries
    ensures h != s.start && |s.entries| == 0 ==> |r.entries| == 1
    ensures StartIsRoot(s) ==> StartIsRoot(r)
  {
    if s.start == h then s
    else if |s.entries| > 0 then
      if s.entries[0] == s.start then s.(entries := s.entries[0 := h], start := h)
      else s.(entries := [h] + s.entries, start := h)
    else s.(entries := s.entries + [h], start := h)
  }

  /** Clearing is idempotent. */
  lemma ClearIdempotent(s: Stack)
    ensures Clear(Clear(s)) == Clear(s)
  {
  }

  /** Setting the same start scene twice is the same as setting it once. */
  lemma SetStartIdempotent(s: Stack, h: Option<Handle>)
    ensures SetStart(SetStart(s, h), h) == SetStart(s, h)
  {
  }

  /** Because LoadScene clears before it adds, loading a Single-mode reference
      other than the start scene with both flags set leaves exactly the start
      scene and that reference; loading the start scene itself that way leaves
      only the start scene. */
  lemma ClearThenAdd(s: Stack, h: Handle)
    requires s.start.Some?
    requires h.mode == Single
    ensures Some(h) != s.start ==> Bookkeep(s, h, true, true).entries == [s.start, Some(h)]
    ensures Some(h) == s.start ==> Bookkeep(s, h, true, true).entries == [s.start]
  {
    var c := Clear(s);
    assert c.entries == [s.start];
  }

  /** With no start scene, a Single-mode reference loaded with both flags set
      is the whole history; an Additive one leaves it empty. */
  lemma ClearThenAddWithoutStart(s: Stack, h: Handle)
    requires s.start.None?
    ensures h.mode == Single ==> Bookkeep(s, h, true, true).entries == [Some(h)]
    ensures h.mode == Additive ==> Bookkeep(s, h, true, true).entries == []
  {
  }
}
