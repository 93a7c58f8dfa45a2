/** Every scene operation of the sequential model by its guards, and what applying visibility does to OBS, input by
    input. */
module SceneContracts {
  import opened Options
  import opened Model
  import Names
  import opened Obs
  import opened Sections
  import opened Invariants
  import opened Sequential
  import OnAir
  import Effects

  ghost predicate ScenesSaved(m: Mem, m': Mem, f: Faults) {
    m'.sceneStore == Store(if SaveScenes in f then m.sceneStore.saved else SceneDefs(m'.scenes), SaveScenes !in f)
  }

  /** The list names known public positions only. */
  predicate Acceptable(m: Mem, ids: seq<string>) {
    forall i :: 0 <= i < |ids| ==> ids[i] != SIMPLE && ids[i] in m.positions
  }

  /** The error is that of the first id that is reserved or unknown. */
  ghost predicate ComplainsOf(m: Mem, ids: seq<string>, e: Error) {
    exists k :: Effects.FirstBad(m, ids, k) && e == if ids[k] == SIMPLE then ReservedPosition else PositionNotFound
  }

  lemma ValidatedExact(m: Mem, ids: seq<string>)
    ensures ValidateSceneIDs(m, ids).Ok? <==> Acceptable(m, ids)
    ensures ValidateSceneIDs(m, ids).Err? ==> ComplainsOf(m, ids, ValidateSceneIDs(m, ids).error)
  {
    Effects.ValidationErrors(m, ids);
    hide ValidateSceneIDs;
  }

  lemma CreateSceneExact(s: Sys, name: string, ids: seq<string>, id: string, f: Faults)
    requires id !in s.mem.scenes
    ensures var (s', r) := CreateScene(s, name, ids, id, f);
      var t, list := Names.TrimSpace(name), Dedupe(ids);
      && s'.obs == s.obs
      && (if t == "" then s' == s && r == Err(SceneNameRequired)
          else if exists x :: x in s.mem.scenes && s.mem.scenes[x].name == t then s' == s && r == Err(SceneNameTaken)
          else if !Acceptable(s.mem, list) then s' == s && r.Err? && ComplainsOf(s.mem, list, r.error)
          else if SaveScenes in f
          then r == Err(SaveFailed) && s'.mem == s.mem.(sceneStore := Store(s.mem.sceneStore.saved, false))
          else
            && r == Ok(Scene(t, list))
            && s'.mem == s.mem.(scenes := s.mem.scenes[id := r.value], sceneStore := s'.mem.sceneStore)
            && ScenesSaved(s.mem, s'.mem, f))
  {
    ValidatedExact(s.mem, Dedupe(ids));
    var t := Names.TrimSpace(name);
    assert s.mem.scenes[id := Scene(t, Dedupe(ids))] - {id} == s.mem.scenes;
    hide SceneDefs, Names.TrimSpace, ValidateSceneIDs, Dedupe, Acceptable, ComplainsOf;
  }

  lemma RenameSceneExact(s: Sys, id: string, name: string, f: Faults)
    ensures var (s', r) := RenameScene(s, id, name, f);
      var t := Names.TrimSpace(name);
      && s'.obs == s.obs
      && (if t == "" then s' == s && r == Err(SceneNameRequired)
          else if id !in s.mem.scenes then s' == s && r == Err(SceneNotFound)
          else if s.mem.scenes[id].name == t then s' == s && r == Ok(s.mem.scenes[id])
          else if exists x :: x in s.mem.scenes && x != id && s.mem.scenes[x].name == t
          then s' == s && r == Err(SceneNameTaken)
          else
            && s'.mem == s.mem.(scenes := s.mem.scenes[id := s.mem.scenes[id].(name := t)],
                                sceneStore := s'.mem.sceneStore)
            && ScenesSaved(s.mem, s'.mem, f)
            && r == (if SaveScenes in f then Err(SaveFailed) else Ok(s.mem.scenes[id].(name := t))))
  {
    hide SceneDefs, Names.TrimSpace;
  }

  // ----- Visibility -----

  /** Every known input is set as wanted when all these calls go through. When one does not, each known input is as it
      was or as it was wanted. Inputs of unknown positions, sources and mutes are as they were. */
  ghost predicate Applied(o: Tables, o': Tables, known: set<string>, wanted: set<string>, f: Faults) {
    && o'.inputs == o.inputs && o'.muted == o.muted
    && (forall x :: x !in known ==> (IsEnabled(o', x) <==> IsEnabled(o, x)))
    && (if AllSettable(o, known, f)
        then forall x :: x in known ==> (IsEnabled(o', x) <==> x in wanted)
        else forall x :: x in known ==> (IsEnabled(o', x) <==> IsEnabled(o, x)) || (IsEnabled(o', x) <==> x in wanted))
  }

  predicate AllSettable(o: Tables, known: set<string>, f: Faults) {
    forall x :: x in known ==> x in o.inputs && SetEnabled(x) !in f
  }

  lemma {:induction false} ApplyMoves(o: Tables, order: seq<string>, enable: set<string>, f: Faults)
    ensures var o' := ApplyExclusive(o, order, enable, f).0;
      forall x :: (IsEnabled(o', x) <==> IsEnabled(o, x)) || (IsEnabled(o', x) <==> x in enable)
    decreases order
  {
    if order != [] && Enable(o, order[0], order[0] in enable, f).1 {
      ApplyMoves(Enable(o, order[0], order[0] in enable, f).0, order[1..], enable, f);
    }
  }

  lemma ApplyExact(o: Tables, order: seq<string>, known: set<string>, enable: set<string>, f: Faults)
    requires Enumerates(order, known)
    ensures var (o', ok) := ApplyExclusive(o, order, enable, f);
      ok == AllSettable(o, known, f) && Applied(o, o', known, enable, f)
  {
    OnAir.ApplyExclusiveEffect(o, order, enable, f);
    ApplyMoves(o, order, enable, f);
    hide ApplyExclusive;
  }

  lemma UpdateSceneExact(s: Sys, id: string, ids: seq<string>, order: seq<string>, f: Faults)
    requires Enumerates(order, s.mem.positions.Keys)
    ensures var (s', r) := UpdateScenePositions(s, id, ids, order, f);
      var list := Dedupe(ids);
      if id !in s.mem.scenes then s' == s && r == Err(SceneNotFound)
      else if !Acceptable(s.mem, list) then s' == s && r.Err? && ComplainsOf(s.mem, list, r.error)
      else
        && s'.mem == s.mem.(scenes := s.mem.scenes[id := s.mem.scenes[id].(positionIDs := list)],
                            sceneStore := s'.mem.sceneStore)
        && ScenesSaved(s.mem, s'.mem, f)
        && r == (if SaveScenes in f then Err(SaveFailed) else Ok(s.mem.scenes[id].(positionIDs := list)))
        && (if r.Ok? && s.mem.live.liveKind == KindScene && s.mem.live.liveID == id
            then Applied(s.obs, s'.obs, s.mem.positions.Keys, (set x | x in list), f)
            else s'.obs == s.obs)
  {
    ValidatedExact(s.mem, Dedupe(ids));
    ApplyExact(s.obs, order, s.mem.positions.Keys, IdSet(Dedupe(ids)), f);
    assert IdSet(Dedupe(ids)) == (set x | x in Dedupe(ids));
    hide SceneDefs, ValidateSceneIDs, Dedupe, Acceptable, ComplainsOf, ApplyExclusive, Applied, IdSet;
  }

  lemma DeleteSceneExact(s: Sys, id: string, f: Faults)
    ensures var (s', r) := DeleteScene(s, id, f);
      && s'.obs == s.obs
      && (if id !in s.mem.scenes then s' == s && r == Err(SceneNotFound)
          else if s.mem.live.liveKind == KindScene && s.mem.live.liveID == id then s' == s && r == Err(SceneIsLive)
          else
            && s'.mem == s.mem.(scenes := s.mem.scenes - {id}, live := s'.mem.live, sceneStore := s'.mem.sceneStore)
            && s'.mem.live == (if s.mem.live.previewKind == KindScene && s.mem.live.previewID == id
                               then s.mem.live.(previewKind := KindNone, previewID := "") else s.mem.live)
            && ScenesSaved(s.mem, s'.mem, f)
            && r == (if SaveScenes in f then Err(SaveFailed) else Ok(())))
  {
    hide SceneDefs;
  }

  /** A preview of something known puts just that in preview; one of something unknown changes nothing. */
  lemma PreviewExact(s: Sys, id: string)
    ensures var (s', r) := SetPreviewCamera(s, id);
      if id !in s.mem.cameras then s' == s && r == Err(CameraNotFound)
      else
        && s' == s.(mem := s.mem.(live := LiveState(KindCamera, id, s.mem.live.liveKind, s.mem.live.liveID)))
        && r == Ok(s'.mem.live)
    ensures var (s', r) := SetPreviewScene(s, id);
      if id !in s.mem.scenes then s' == s && r == Err(SceneNotFound)
      else
        && s' == s.(mem := s.mem.(live := LiveState(KindScene, id, s.mem.live.liveKind, s.mem.live.liveID)))
        && r == Ok(s'.mem.live)
  {}
}
