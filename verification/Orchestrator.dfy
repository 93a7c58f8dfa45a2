/** The orchestrator in place: the maps and fields behind its mutex, changed step by step by the loops of the source,
    against the operations of the sequential model. Map iteration picks its keys in any order. */
module OrchestratorInPlace {
  import opened Options
  import opened Model
  import Names
  import opened Obs
  import opened Sections
  import opened Invariants
  import Seq = Sequential
  import opened SequentialSafety
  import Restart

  /** A position that a section has just cleared, and whether it carried the audio. */
  datatype Unassignment = Unassignment(id: string, wasAudio: bool)

  // ----- Sorting and deduplicating -----

  /** The ids of a map, collected in any order and sorted. */
  method SortIds(ids: set<string>) returns (sorted: seq<string>)
    ensures sorted == Names.SortedIds(ids)
  {
    sorted := [];
    var rest := ids;
    while rest != {}
      invariant rest <= ids && Names.Ascending(sorted)
      invariant forall x :: x in sorted <==> x in ids - rest
    {
      var id :| id in rest;
      var k := 0;
      while k < |sorted| && Names.Less(sorted[k], id)
        invariant k <= |sorted| && forall i :: 0 <= i < k ==> Names.Less(sorted[i], id)
      {
        k := k + 1;
      }
      InsertKeepsAscending(sorted, id, k);
      sorted := sorted[..k] + [id] + sorted[k..];
      rest := rest - {id};
    }
    Names.SortedIdsExact(ids);
    Names.AscendingUnique(sorted, Names.SortedIds(ids));
  }

  lemma InsertKeepsAscending(s: seq<string>, id: string, k: nat)
    requires Names.Ascending(s) && id !in s && k <= |s|
    requires forall i :: 0 <= i < k ==> Names.Less(s[i], id)
    requires k < |s| ==> !Names.Less(s[k], id)
    ensures Names.Ascending(s[..k] + [id] + s[k..])
    ensures forall x :: x in s[..k] + [id] + s[k..] <==> x in s || x == id
  {
    forall j | k <= j < |s| ensures Names.Less(id, s[j]) {
      Names.LessTrichotomy(id, s[k]);
      if j > k { Names.LessTransitive(id, s[k], s[j]); }
    }
    assert s == s[..k] + s[k..];
  }

  method DedupePositionIDs(ids: seq<string>) returns (out: seq<string>)
    ensures out == Dedupe(ids)
  {
    out := [];
    var seen: set<string> := {};
    for i := 0 to |ids|
      invariant out == Dedupe(ids[..i])
      invariant forall x :: x in seen <==> x in out
    {
      assert ids[..i + 1][..i] == ids[..i];
      if ids[i] != "" && ids[i] !in seen {
        seen := seen + {ids[i]};
        out := out + [ids[i]];
      }
    }
    assert ids[..|ids|] == ids;
  }

  class Orchestrator {
    const base: string
    const obs: Mock
    var cameras: map<string, Camera>
    var offlineSince: map<string, int>
    var mediaConnected: bool
    var positions: map<string, Position>
    var scenes: map<string, Scene>
    var audioPositionID: string
    var live: LiveState
    var hiddenReady: bool
    var positionsStore: Store<PositionDef>
    var scenesStore: Store<SceneDef>

    ghost function Guarded(): Mem
      reads this
    {
      Mem(base, cameras, offlineSince, mediaConnected, positions, scenes, audioPositionID, live, hiddenReady,
          positionsStore, scenesStore)
    }

    ghost function View(): Seq.Sys
      reads this, obs
    {
      Seq.Sys(Guarded(), obs.View())
    }

    ghost predicate Valid()
      reads this
    {
      Good(Guarded())
    }

    /** New; a file that does not load counts as empty. */
    constructor (base: string, obs: Mock, positionsFile: seq<PositionDef>, scenesFile: seq<SceneDef>)
      ensures this.obs == obs && Guarded() == Seq.Start(base, positionsFile, scenesFile)
      ensures Restart.Loadable(positionsFile, scenesFile) ==> Valid()
    {
      this.base, this.obs := base, obs;
      cameras, offlineSince, mediaConnected := map[], map[], false;
      positions, scenes, audioPositionID := map[], map[], "";
      live, hiddenReady := LiveState(KindNone, "", KindNone, ""), false;
      positionsStore, scenesStore := Store(positionsFile, false), Store(scenesFile, false);
      new;
      for i := 0 to |positionsFile|
        invariant Guarded() == Seq.Start(base, positionsFile, scenesFile).(
            positions := Seq.LoadPositions(positionsFile[..i]), scenes := map[])
      {
        var p := positionsFile[i];
        assert positionsFile[..i + 1][..i] == positionsFile[..i];
        if p.id == SIMPLE {
          continue;
        }
        positions := positions[p.id := Position(p.name, "", false)];
      }
      assert positionsFile[..|positionsFile|] == positionsFile;
      for i := 0 to |scenesFile|
        invariant Guarded() == Seq.Start(base, positionsFile, scenesFile).(scenes := Seq.LoadScenes(scenesFile[..i]))
      {
        var s := scenesFile[i];
        assert scenesFile[..i + 1][..i] == scenesFile[..i];
        scenes := scenes[s.id := Scene(s.name, s.positionIDs)];
      }
      assert scenesFile[..|scenesFile|] == scenesFile;
      if Restart.Loadable(positionsFile, scenesFile) {
        Restart.StartIsGood(base, positionsFile, scenesFile);
      }
    }

    // ----- Stores -----

    method PersistPositionsLocked(f: Faults) returns (ok: bool)
      modifies this`positionsStore
      ensures ok == (SavePositions !in f) && Guarded() == PersistPositions(old(Guarded()), ok)
    {
      var ids := SortIds(positions.Keys - {SIMPLE});
      Names.SortedIdsExact(positions.Keys - {SIMPLE});
      var defs := [];
      for i := 0 to |ids|
        invariant defs == PositionDefs(positions)[..i]
      {
        assert ids[i] in ids;
        defs := defs + [PositionDef(ids[i], positions[ids[i]].name)];
      }
      ok := SavePositions !in f;
      positionsStore := Store(if ok then defs else positionsStore.saved, ok);
    }

    method PersistScenesLocked(f: Faults) returns (ok: bool)
      modifies this`scenesStore
      ensures ok == (SaveScenes !in f) && Guarded() == PersistScenes(old(Guarded()), ok)
    {
      var ids := SortIds(scenes.Keys);
      Names.SortedIdsExact(scenes.Keys);
      var defs := [];
      for i := 0 to |ids|
        invariant defs == SceneDefs(scenes)[..i]
      {
        assert ids[i] in ids;
        defs := defs + [SceneDef(ids[i], scenes[ids[i]].name, scenes[ids[i]].positionIDs)];
      }
      ok := SaveScenes !in f;
      scenesStore := Store(if ok then defs else scenesStore.saved, ok);
    }

    // ----- Loops that look a position or a scene up -----

    method FindsPositionName(name: string, except: string) returns (taken: bool)
      ensures taken == PositionNameIsTaken(Guarded(), name, except)
    {
      var rest := positions.Keys;
      while rest != {}
        invariant rest <= positions.Keys
        invariant forall id :: id in positions.Keys - rest && id != SIMPLE && id != except ==>
          positions[id].name != name
      {
        var id :| id in rest;
        if id != SIMPLE && id != except && positions[id].name == name {
          return true;
        }
        rest := rest - {id};
      }
      taken := false;
    }

    method FindsSceneName(name: string, except: Option<string>) returns (taken: bool)
      ensures taken <==> exists id :: id in scenes && except != Some(id) && scenes[id].name == name
    {
      var rest := scenes.Keys;
      while rest != {}
        invariant rest <= scenes.Keys
        invariant forall id :: id in scenes.Keys - rest && except != Some(id) ==> scenes[id].name != name
      {
        var id :| id in rest;
        if except != Some(id) && scenes[id].name == name {
          return true;
        }
        rest := rest - {id};
      }
      taken := false;
    }

    method ValidateScenePositionIDsLocked(ids: seq<string>) returns (r: Outcome<()>)
      ensures r == ValidateSceneIDs(Guarded(), ids)
    {
      for i := 0 to |ids|
        invariant ValidateSceneIDs(Guarded(), ids) == ValidateSceneIDs(Guarded(), ids[i..])
      {
        if ids[i] == SIMPLE {
          return Err(ReservedPosition);
        }
        if ids[i] !in positions {
          return Err(PositionNotFound);
        }
        assert ids[i..][1..] == ids[i + 1..];
      }
      r := Ok(());
    }

    // ----- Clearing cameras out of positions -----

    method ClearPosition(id: string) returns (u: Unassignment)
      requires id in positions
      modifies this`positions, this`audioPositionID
      ensures Guarded() == ClearPositions(old(Guarded()), {id}) && u == Unassignment(id, old(positions)[id].isAudio)
    {
      u := Unassignment(id, positions[id].isAudio);
      positions := positions[id := positions[id].(cameraID := "")];
      if u.wasAudio {
        positions := positions[id := positions[id].(isAudio := false)];
        audioPositionID := "";
      }
    }

    /** Clears the first position other than `except` in which the loop finds the camera, and stops. That it is the only
        one is what the class invariant is needed for. */
    method ClearCameraFromPositionsLocked(cid: string, except: set<string>) returns (hit: Option<Unassignment>)
      requires OneCameraOnePosition(positions) && cid != ""
      modifies this`positions, this`audioPositionID
      ensures hit.None? ==> Holders(old(positions), {cid}) - except == {} && Guarded() == old(Guarded())
      ensures hit.Some? ==> (
        && Holders(old(positions), {cid}) - except == {hit.value.id}
        && hit.value.wasAudio == old(positions)[hit.value.id].isAudio
        && Guarded() == ClearPositions(old(Guarded()), {hit.value.id}))
    {
      var rest := positions.Keys;
      while rest != {}
        invariant rest <= positions.Keys
        invariant forall id :: id in positions.Keys - rest && id !in except ==> positions[id].cameraID != cid
      {
        var id :| id in rest;
        if id !in except && positions[id].cameraID == cid {
          var u := ClearPosition(id);
          return Some(u);
        }
        rest := rest - {id};
      }
      hit := None;
    }

    /** Switches one cleared position off in OBS; `m` is the guarded state before it was cleared. */
    method TurnOff(u: Unassignment, ghost m: Mem, f: Faults)
      requires u.id in m.positions && u.wasAudio == m.positions[u.id].isAudio
      modifies obs
      ensures obs.View() == Seq.Settle(old(obs.View()), m, {u.id}, f)
    {
      hide Seq.Settle;
      SettleOne(obs.View(), m, u.id, f);
      var _ := obs.SetPositionEnabled(u.id, false, f);
      if u.wasAudio {
        var _ := obs.SetInputAudioMuted(u.id, true, f);
      }
    }

    // ----- Positions -----

    method CreatePositionLocked(id: string, name: string, f: Faults) returns (r: Outcome<Position>)
      modifies this`positions, this`positionsStore
      ensures (Guarded(), r) == CreateCommit(old(Guarded()), id, name, SavePositions !in f)
    {
      var taken := FindsPositionName(name, SIMPLE);
      if taken {
        return Err(PositionNameTaken);
      }
      positions := positions[id := Position(name, "", false)];
      var ok := PersistPositionsLocked(f);
      if !ok {
        positions := positions - {id};
        return Err(SaveFailed);
      }
      r := Ok(positions[id]);
    }

    /** The name is checked twice; run alone, the second check cannot fail where the first passed. */
    method CreatePosition(name: string, id: string, f: Faults) returns (r: Outcome<Position>)
      requires Valid() && id !in positions && id != "" && id != SIMPLE
      modifies this, obs
      ensures Valid() && (View(), r) == Seq.CreatePosition(old(View()), name, id, f)
    {
      hide Good, Names.ValidatePositionName, CreateCommit;
      CreateGood(View(), name, id, f);
      var trimmed := Names.ValidatePositionName(name);
      if trimmed.Err? {
        return Err(trimmed.error);
      }
      var taken := FindsPositionName(trimmed.value, SIMPLE);
      if taken {
        return Err(PositionNameTaken);
      }
      var ok := obs.CreatePositionInput(id, f);
      if !ok {
        return Err(OBSUnreachable);
      }
      r := CreatePositionLocked(id, trimmed.value, f);
    }

    method RenamePositionLocked(id: string, name: string, f: Faults) returns (r: Outcome<Position>)
      modifies this`positions, this`positionsStore
      ensures (Guarded(), r) == RenameSection(old(Guarded()), id, name, SavePositions !in f)
    {
      if id !in positions || id == SIMPLE {
        return Err(PositionNotFound);
      }
      if positions[id].name != name {
        var taken := FindsPositionName(name, id);
        if taken {
          return Err(PositionNameTaken);
        }
        positions := positions[id := positions[id].(name := name)];
        var ok := PersistPositionsLocked(f);
        if !ok {
          return Err(SaveFailed);
        }
      }
      r := Ok(positions[id]);
    }

    method RenamePosition(id: string, name: string, f: Faults) returns (r: Outcome<Position>)
      requires Valid()
      modifies this
      ensures Valid() && (View(), r) == Seq.RenamePosition(old(View()), id, name, f)
    {
      hide Good, Names.ValidatePositionName, RenameSection;
      RenameGood(View(), id, name, f);
      if id == SIMPLE {
        return Err(ReservedPosition);
      }
      var trimmed := Names.ValidatePositionName(name);
      if trimmed.Err? {
        return Err(trimmed.error);
      }
      r := RenamePositionLocked(id, trimmed.value, f);
    }

    method DeletePositionLocked(id: string, f: Faults) returns (r: Outcome<()>)
      modifies this`positions, this`audioPositionID, this`positionsStore
      ensures (Guarded(), r) == DeleteCommit(old(Guarded()), id, SavePositions !in f)
    {
      if id !in positions {
        return Err(PositionNotFound);
      }
      positions := positions - {id};
      if audioPositionID == id {
        audioPositionID := "";
      }
      var ok := PersistPositionsLocked(f);
      r := if ok then Ok(()) else Err(SaveFailed);
    }

    method DeletePosition(id: string, f: Faults) returns (r: Outcome<()>)
      requires Valid()
      modifies this, obs
      ensures Valid() && (View(), r) == Seq.DeletePosition(old(View()), id, f)
    {
      hide Good, DeleteCommit;
      DeleteGood(View(), id, f);
      if id == SIMPLE {
        return Err(ReservedPosition);
      }
      if id !in positions {
        return Err(PositionNotFound);
      }
      var hadCamera, wasAudio := positions[id].cameraID != "", positions[id].isAudio;
      if hadCamera {
        var _ := obs.SetPositionEnabled(id, false, f);
      }
      if wasAudio {
        var _ := obs.SetInputAudioMuted(id, true, f);
      }
      var _ := obs.RemovePositionInput(id, f);
      r := DeletePositionLocked(id, f);
    }

    method AssignCameraLocked(pid: string, cid: string) returns (bumped: Option<Unassignment>)
      requires OneCameraOnePosition(positions) && pid in positions && cid != ""
      modifies this`positions, this`audioPositionID
      ensures Guarded() == AssignCommit(old(Guarded()), pid, cid, Holders(old(positions), {cid}) - {pid}).0
      ensures Holders(old(positions), {cid}) - {pid} == if bumped.Some? then {bumped.value.id} else {}
      ensures bumped.Some? ==> bumped.value.wasAudio == old(positions)[bumped.value.id].isAudio
    {
      bumped := ClearCameraFromPositionsLocked(cid, {pid});
      positions := positions[pid := positions[pid].(cameraID := cid)];
    }

    method AssignCamera(pid: string, cid: string, f: Faults) returns (r: Outcome<Position>)
      requires Valid()
      modifies this, obs
      ensures Valid() && (View(), r) == Seq.AssignCamera(old(View()), pid, cid, f)
    {
      AssignGood(View(), pid, cid, f);
      ghost var was := Guarded();
      assert OneCameraOnePosition(positions) && "" !in cameras;
      hide Good, Holders;
      if pid == SIMPLE {
        return Err(ReservedPosition);
      }
      if pid !in positions {
        return Err(PositionNotFound);
      }
      if cid !in cameras {
        return Err(CameraNotFound);
      }
      if !cameras[cid].online {
        return Err(CameraOffline);
      }
      if positions[pid].cameraID == cid {
        return Ok(positions[pid]);
      }
      var updated := obs.UpdatePositionSource(pid, cameras[cid].sourceURL, f);
      if updated.InputMissing? {
        return Err(PositionOBSInputMissing);
      }
      if updated.Unreachable? {
        return Err(OBSUnreachable);
      }
      var bumped := AssignCameraLocked(pid, cid);
      r := Ok(positions[pid]);
      if bumped.Some? {
        TurnOff(bumped.value, was, f);
      } else {
        SettleNothing(obs.View(), was, f);
      }
    }

    method UnassignPosition(pid: string, f: Faults) returns (r: Outcome<Position>)
      requires Valid()
      modifies this, obs
      ensures Valid() && (View(), r) == Seq.UnassignPosition(old(View()), pid, f)
    {
      hide Good, Seq.Settle;
      UnassignGood(View(), pid, f);
      if pid == SIMPLE {
        return Err(ReservedPosition);
      }
      if pid !in positions {
        return Err(PositionNotFound);
      }
      if positions[pid].cameraID == "" {
        return Ok(positions[pid]);
      }
      SettleOne(obs.View(), Guarded(), pid, f);
      var _ := obs.SetPositionEnabled(pid, false, f);
      var u := ClearPosition(pid);
      r := Ok(positions[pid]);
      if u.wasAudio {
        var _ := obs.SetInputAudioMuted(pid, true, f);
      }
    }

    // ----- Audio -----

    /** The calls both audio operations make: the previous source is muted, then the new one is heard. */
    method SwitchAudio(pid: string, f: Faults) returns (ok: bool)
      modifies obs
      ensures (obs.View(), ok) == Mute(Seq.MutePrevious(old(obs.View()), pid, audioPositionID, f), pid, false, f)
    {
      if audioPositionID != "" && audioPositionID != pid {
        var _ := obs.SetInputAudioMuted(audioPositionID, true, f);
      }
      ok := obs.SetInputAudioMuted(pid, false, f);
    }

    method FlagAudioLocked(pid: string, prev: string)
      modifies this`positions, this`audioPositionID
      ensures Guarded() == AudioInternalCommit(old(Guarded()), pid, prev)
    {
      ReflagInTwoSteps(positions, pid, prev);
      if prev != "" && prev != pid && prev in positions {
        positions := positions[prev := positions[prev].(isAudio := false)];
      }
      if pid in positions {
        positions := positions[pid := positions[pid].(isAudio := true)];
      }
      audioPositionID := pid;
    }

    method SetAudioPosition(pid: string, f: Faults) returns (r: Outcome<Position>)
      requires Valid()
      modifies this, obs
      ensures Valid() && (View(), r) == Seq.SetAudioPosition(old(View()), pid, f)
    {
      hide Good;
      SetAudioGood(View(), pid, f);
      if pid == SIMPLE {
        return Err(ReservedPosition);
      }
      if pid !in positions {
        return Err(PositionNotFound);
      }
      if positions[pid].cameraID == "" {
        return Err(PositionEmpty);
      }
      var ok := SwitchAudio(pid, f);
      if !ok {
        return Err(OBSUnreachable);
      }
      FlagAudioLocked(pid, audioPositionID);
      r := Ok(positions[pid]);
    }

    /** setAudioPositionInternal for the hidden position, the only one it is called for. */
    method SetAudioPositionInternal(f: Faults)
      modifies this`positions, this`audioPositionID, obs
      ensures View() == Seq.FollowAudio(old(View()), f)
    {
      var ok := SwitchAudio(SIMPLE, f);
      if ok {
        FlagAudioLocked(SIMPLE, audioPositionID);
      }
    }

    // ----- Scenes -----

    method CreateSceneLocked(id: string, name: string, ids: seq<string>, f: Faults) returns (r: Outcome<Scene>)
      modifies this`scenes, this`scenesStore
      ensures (Guarded(), r) == CreateSceneSection(old(Guarded()), id, name, ids, SaveScenes !in f)
    {
      var taken := FindsSceneName(name, None);
      if taken {
        return Err(SceneNameTaken);
      }
      var valid := ValidateScenePositionIDsLocked(ids);
      if valid.Err? {
        return Err(valid.error);
      }
      scenes := scenes[id := Scene(name, ids)];
      var ok := PersistScenesLocked(f);
      if !ok {
        scenes := scenes - {id};
        return Err(SaveFailed);
      }
      r := Ok(scenes[id]);
    }

    method CreateScene(name: string, ids: seq<string>, id: string, f: Faults) returns (r: Outcome<Scene>)
      requires Valid() && id !in scenes
      modifies this
      ensures Valid() && (View(), r) == Seq.CreateScene(old(View()), name, ids, id, f)
    {
      hide Good, Names.ValidateSceneName, CreateSceneSection, Dedupe;
      CreateSceneGood(View(), name, ids, id, f);
      var trimmed := Names.ValidateSceneName(name);
      if trimmed.Err? {
        return Err(trimmed.error);
      }
      var distinct := DedupePositionIDs(ids);
      r := CreateSceneLocked(id, trimmed.value, distinct, f);
    }

    method RenameSceneLocked(id: string, name: string, f: Faults) returns (r: Outcome<Scene>)
      modifies this`scenes, this`scenesStore
      ensures (Guarded(), r) == RenameSceneSection(old(Guarded()), id, name, SaveScenes !in f)
    {
      if id !in scenes {
        return Err(SceneNotFound);
      }
      if scenes[id].name != name {
        var taken := FindsSceneName(name, Some(id));
        if taken {
          return Err(SceneNameTaken);
        }
        scenes := scenes[id := scenes[id].(name := name)];
        var ok := PersistScenesLocked(f);
        if !ok {
          return Err(SaveFailed);
        }
      }
      r := Ok(scenes[id]);
    }

    method RenameScene(id: string, name: string, f: Faults) returns (r: Outcome<Scene>)
      requires Valid()
      modifies this
      ensures Valid() && (View(), r) == Seq.RenameScene(old(View()), id, name, f)
    {
      hide Good, Names.ValidateSceneName, RenameSceneSection;
      SceneGood(View(), id, name, [], [], f);
      var trimmed := Names.ValidateSceneName(name);
      if trimmed.Err? {
        return Err(trimmed.error);
      }
      r := RenameSceneLocked(id, trimmed.value, f);
    }

    method UpdateSceneLocked(id: string, ids: seq<string>, f: Faults) returns (r: Outcome<Scene>)
      modifies this`scenes, this`scenesStore
      ensures (Guarded(), r) == UpdateSceneSection(old(Guarded()), id, ids, SaveScenes !in f)
    {
      if id !in scenes {
        return Err(SceneNotFound);
      }
      var valid := ValidateScenePositionIDsLocked(ids);
      if valid.Err? {
        return Err(valid.error);
      }
      scenes := scenes[id := scenes[id].(positionIDs := ids)];
      var ok := PersistScenesLocked(f);
      r := if ok then Ok(scenes[id]) else Err(SaveFailed);
    }

    /** `order` is the order in which the positions were visited, when they were. */
    method UpdateScenePositions(id: string, ids: seq<string>, f: Faults)
      returns (r: Outcome<Scene>, ghost order: seq<string>)
      requires Valid()
      modifies this, obs
      ensures Valid() && (View(), r) == Seq.UpdateScenePositions(old(View()), id, ids, order, f)
      ensures Seq.Enumerates(order, positions.Keys)
    {
      hide Good, UpdateSceneSection, Dedupe, Seq.ApplyExclusive;
      ghost var was := View();
      order := Names.SortedIds(positions.Keys);
      Names.SortedIdsExact(positions.Keys);
      UpdateSceneFrame(was.mem, id, Dedupe(ids), SaveScenes !in f);
      var distinct := DedupePositionIDs(ids);
      r := UpdateSceneLocked(id, distinct, f);
      if r.Ok? && live.liveKind == KindScene && live.liveID == id {
        var _, visited := ApplyExclusiveVisibility(distinct, f);
        order := visited;
      }
      SceneGood(was, id, "", ids, order, f);
    }

    method DeleteScene(id: string, f: Faults) returns (r: Outcome<()>)
      requires Valid()
      modifies this
      ensures Valid() && (View(), r) == Seq.DeleteScene(old(View()), id, f)
    {
      hide Good;
      SceneGood(View(), id, "", [], [], f);
      if id !in scenes {
        return Err(SceneNotFound);
      }
      if live.liveKind == KindScene && live.liveID == id {
        return Err(SceneIsLive);
      }
      scenes := scenes - {id};
      if live.previewKind == KindScene && live.previewID == id {
        live := live.(previewKind := KindNone, previewID := "");
      }
      var ok := PersistScenesLocked(f);
      r := if ok then Ok(()) else Err(SaveFailed);
    }

    // ----- Preview and cut -----

    method SetPreviewCamera(cid: string) returns (r: Outcome<LiveState>)
      requires Valid()
      modifies this
      ensures Valid() && (View(), r) == Seq.SetPreviewCamera(old(View()), cid)
    {
      hide Good;
      SceneGood(View(), cid, "", [], [], {});
      if cid !in cameras {
        return Err(CameraNotFound);
      }
      live := live.(previewKind := KindCamera, previewID := cid);
      r := Ok(live);
    }

    method SetPreviewScene(sid: string) returns (r: Outcome<LiveState>)
      requires Valid()
      modifies this
      ensures Valid() && (View(), r) == Seq.SetPreviewScene(old(View()), sid)
    {
      hide Good;
      SceneGood(View(), sid, "", [], [], {});
      if sid !in scenes {
        return Err(SceneNotFound);
      }
      live := live.(previewKind := KindScene, previewID := sid);
      r := Ok(live);
    }

    method EnsureHiddenPosition(f: Faults)
      requires Valid()
      modifies this`positions, this`hiddenReady, obs
      ensures Valid() && View() == Seq.EnsureHidden(old(View()), f)
    {
      hide Good;
      EnsureHiddenGood(View(), f);
      if hiddenReady && SIMPLE in positions {
        return;
      }
      var _ := obs.CreatePositionInput(SIMPLE, f);
      if SIMPLE !in positions {
        positions := positions[SIMPLE := Position(SIMPLE, "", false)];
      }
      hiddenReady := true;
    }

    /** Collects the positions in the order of the map, then sets each one in turn until a call fails. */
    method ApplyExclusiveVisibility(enableIDs: seq<string>, f: Faults) returns (ok: bool, ghost order: seq<string>)
      modifies obs
      ensures Seq.Enumerates(order, positions.Keys)
      ensures (obs.View(), ok) == Seq.ApplyExclusive(old(obs.View()), order, Seq.IdSet(enableIDs), f)
    {
      var enable: set<string> := {};
      for i := 0 to |enableIDs|
        invariant enable == Seq.IdSet(enableIDs[..i])
      {
        enable := enable + {enableIDs[i]};
      }
      assert enable == Seq.IdSet(enableIDs);
      var all: seq<string> := [];
      var rest := positions.Keys;
      while rest != {}
        invariant rest <= positions.Keys && forall id :: id in all <==> id in positions.Keys - rest
      {
        var id :| id in rest;
        all := all + [id];
        rest := rest - {id};
      }
      order := all;
      for i := 0 to |all|
        invariant Seq.ApplyExclusive(old(obs.View()), all, enable, f) ==
          Seq.ApplyExclusive(obs.View(), all[i..], enable, f)
      {
        var done := obs.SetPositionEnabled(all[i], all[i] in enable, f);
        if !done {
          return false, all;
        }
        assert all[i..][1..] == all[i + 1..];
      }
      ok := true;
    }

    /** The scene branch of the first section of Cut: what to enable, or none when a position holds an offline
        camera. */
    method CollectEnabled(ids: seq<string>) returns (enable: Option<seq<string>>)
      ensures enable.None? <==> exists pid ::
        pid in ids && pid in positions && pid != SIMPLE && HoldsOffline(Guarded(), pid)
      ensures enable.Some? ==> enable.value == Existing(Guarded(), ids)
    {
      var found: seq<string> := [];
      for i := 0 to |ids|
        invariant found == Existing(Guarded(), ids[..i])
        invariant forall pid :: pid in ids[..i] && pid in positions && pid != SIMPLE ==> !HoldsOffline(Guarded(), pid)
      {
        var pid := ids[i];
        assert ids[..i + 1][..i] == ids[..i];
        if pid in positions && pid != SIMPLE {
          if positions[pid].cameraID != "" {
            var cid := positions[pid].cameraID;
            if cid in cameras && !cameras[cid].online {
              assert HoldsOffline(Guarded(), pid);
              return None;
            }
          }
          found := found + [pid];
        }
      }
      assert ids[..|ids|] == ids;
      enable := Some(found);
    }

    method PlanCutLocked() returns (plan: CutPlan)
      ensures plan == PlanCut(Guarded())
    {
      hide Existing, HoldsOffline;
      if live.previewKind == KindNone || live.previewID == "" {
        return Refuse(PreviewEmpty);
      }
      if live.liveKind == live.previewKind && live.liveID == live.previewID {
        return AlreadyLive;
      }
      if live.previewKind == KindCamera {
        if live.previewID !in cameras {
          return Refuse(CameraNotFound);
        }
        if !cameras[live.previewID].online {
          return Refuse(SourceUnavailable);
        }
        return ShowCamera(live.previewID);
      }
      if live.previewID !in scenes {
        return Refuse(SceneNotFound);
      }
      var enable := CollectEnabled(scenes[live.previewID].positionIDs);
      plan := if enable.None? then Refuse(SourceUnavailable) else ShowScene(live.previewID, enable.value);
    }

    method CutCameraLocked(cid: string)
      modifies this`positions, this`live
      ensures Guarded() == CutCameraCommit(old(Guarded()), cid)
    {
      if SIMPLE in positions {
        var rest := positions.Keys;
        while rest != {}
          invariant rest <= positions.Keys && Guarded() == old(Guarded()).(positions := positions)
          invariant positions == TakenFromOthers(old(positions), cid, rest)
        {
          var id :| id in rest;
          TakenOneMore(old(positions), cid, rest, id);
          if id != SIMPLE && positions[id].cameraID == cid {
            positions := positions[id := positions[id].(cameraID := "")];
          }
          rest := rest - {id};
        }
        positions := positions[SIMPLE := positions[SIMPLE].(cameraID := cid)];
      }
      live := live.(liveKind := KindCamera, liveID := cid);
    }

    method CutToCamera(cid: string, f: Faults) returns (r: Outcome<LiveState>, ghost order: seq<string>)
      requires cid in cameras
      modifies this`positions, this`audioPositionID, this`live, obs
      ensures (View(), r) == Seq.CutToCamera(old(View()), cid, order, f)
      ensures Seq.Enumerates(order, old(positions).Keys)
    {
      hide Seq.ApplyExclusive, Seq.FollowAudio, CutCameraCommit;
      order := Names.SortedIds(positions.Keys);
      Names.SortedIdsExact(positions.Keys);
      var updated := obs.UpdatePositionSource(SIMPLE, cameras[cid].sourceURL, f);
      if updated.InputMissing? {
        return Err(PositionOBSInputMissing), order;
      }
      if updated.Unreachable? {
        return Err(OBSUnreachable), order;
      }
      var ok, visited := ApplyExclusiveVisibility([SIMPLE], f);
      order := visited;
      assert Seq.IdSet([SIMPLE]) == {SIMPLE};
      if !ok {
        return Err(OBSUnreachable), order;
      }
      SetAudioPositionInternal(f);
      CutCameraLocked(cid);
      r := Ok(live);
    }

    method Cut(f: Faults) returns (r: Outcome<LiveState>, ghost order: seq<string>)
      requires Valid()
      modifies this, obs
      ensures Valid() && (View(), r) == Seq.Cut(old(View()), order, f)
      ensures Seq.Enumerates(order, Seq.EnsureHidden(old(View()), f).mem.positions.Keys)
    {
      hide Good, PlanCut, Seq.CutToCamera, Seq.ApplyExclusive, Seq.EnsureHidden;
      ghost var was := View();
      EnsureHiddenPosition(f);
      PlanNamesCamera(Guarded());
      order := Names.SortedIds(positions.Keys);
      Names.SortedIdsExact(positions.Keys);
      var plan := PlanCutLocked();
      match plan {
        case Refuse(e) => r := Err(e);
        case AlreadyLive => r := Ok(live);
        case ShowCamera(cid) => r, order := CutToCamera(cid, f);
        case ShowScene(sid, enable) =>
          var ok, visited := ApplyExclusiveVisibility(enable, f);
          order := visited;
          if ok {
            live := live.(liveKind := KindScene, liveID := sid);
            r := Ok(live);
          } else {
            r := Err(OBSUnreachable);
          }
      }
      CutGood(was, order, f);
    }

    // ----- Sync -----

    /** The loop over the streams of the media server. */
    method MarkSeenLocked(streams: seq<string>, now: int) returns (seen: set<string>)
      modifies this`cameras, this`offlineSince
      ensures seen == Seq.IdSet(streams)
      ensures Guarded() == SeenMem(old(Guarded()), seen, now)
    {
      seen := {};
      for i := 0 to |streams|
        invariant seen == Seq.IdSet(streams[..i])
        invariant Guarded() == SeenMem(old(Guarded()), seen, now)
      {
        var name := streams[i];
        SeenOneMore(old(Guarded()), seen, now, name);
        seen := seen + {name};
        if name !in cameras {
          cameras := cameras[name := Camera(Names.SourceURL(base, name), true, now)];
        } else {
          if !cameras[name].online {
            cameras := cameras[name := cameras[name].(online := true)];
            offlineSince := offlineSince - {name};
          }
          cameras := cameras[name := cameras[name].(lastSeenAt := now)];
        }
      }
    }

    /** One camera goes offline; the position that the offline hook cleared, if there is one. */
    method MarkOfflineLocked(id: string, now: int) returns (hit: Option<Unassignment>)
      requires OneCameraOnePosition(positions) && id != "" && id in cameras
      modifies this`cameras, this`offlineSince, this`positions, this`audioPositionID
      ensures Holders(old(positions), {id}) == if hit.Some? then {hit.value.id} else {}
      ensures hit.Some? ==> hit.value.id in old(positions) && hit.value.wasAudio == old(positions)[hit.value.id].isAudio
      ensures Guarded() == ClearPositions(old(Guarded()), Holders(old(positions), {id})).(
                cameras := old(cameras)[id := old(cameras)[id].(online := false)],
                offlineSince := old(offlineSince)[id := now])
    {
      cameras := cameras[id := cameras[id].(online := false)];
      offlineSince := offlineSince[id := now];
      hit := ClearCameraFromPositionsLocked(id, {});
      assert Holders(old(positions), {id}) - {} == Holders(old(positions), {id});
    }

    /** The loop over the cameras, in any order: what it cleared, and what it found expired. */
    method MarkGoneLocked(seen: set<string>, now: int) returns (cleared: seq<Unassignment>, removeIDs: seq<string>)
      requires OneCameraOnePosition(positions) && "" !in cameras
      modifies this`cameras, this`offlineSince, this`positions, this`audioPositionID
      ensures var gone := Gone(old(Guarded()), seen);
        && Guarded() == GoneMem(old(Guarded()), gone, now)
        && Lists(cleared, old(Guarded()), Holders(old(positions), gone))
      ensures Seq.IdSet(removeIDs) == Expired(old(Guarded()), seen, now)
    {
      ghost var m := Guarded();
      GoneNone(m, now);
      hide GoneMem, ClearPositions, Lists, OneCameraOnePosition, Holders;
      var rest := cameras.Keys;
      cleared, removeIDs := [], [];
      assert Gone(m, seen) - rest == {} && Gone(m, seen) - {} == Gone(m, seen);
      while rest != {}
        invariant rest <= m.cameras.Keys
        invariant Guarded() == GoneMem(m, Gone(m, seen) - rest, now)
        invariant Lists(cleared, m, Holders(m.positions, Gone(m, seen) - rest))
        invariant Seq.IdSet(removeIDs) == Expired(m, seen, now) - rest
      {
        var id :| id in rest;
        ghost var gone := Gone(m, seen) - rest;
        GoneUnvisited(m, gone, now, id);
        if id !in seen && cameras[id].online {
          GoneOneMore(m, gone, now, id);
          var hit := MarkOfflineLocked(id, now);
          ListsOneMore(cleared, m, gone, id, hit);
          if hit.Some? {
            cleared := cleared + [hit.value];
          }
          assert Gone(m, seen) - (rest - {id}) == gone + {id};
        } else if id !in seen && id in offlineSince && now - offlineSince[id] >= OFFLINE_REMOVE_AFTER {
          assert Seq.IdSet(removeIDs + [id]) == Seq.IdSet(removeIDs) + {id};
          removeIDs := removeIDs + [id];
          assert Gone(m, seen) - (rest - {id}) == gone;
        } else {
          assert Gone(m, seen) - (rest - {id}) == gone;
        }
        rest := rest - {id};
      }
    }

    /** The OBS calls for what a sync cleared; `m` is the guarded state before. */
    method TurnAllOff(cleared: seq<Unassignment>, ghost m: Mem, ghost ids: set<string>, f: Faults)
      requires Lists(cleared, m, ids)
      modifies obs
      ensures obs.View() == Seq.Settle(old(obs.View()), m, ids, f)
    {
      hide Seq.Settle;
      ghost var done: set<string> := {};
      SettleNothing(obs.View(), m, f);
      for i := 0 to |cleared|
        invariant done == set u | u in cleared[..i] :: u.id
        invariant obs.View() == Seq.Settle(old(obs.View()), m, done, f)
      {
        assert cleared[i] in cleared;
        SettleMore(old(obs.View()), m, done, {cleared[i].id}, f);
        TurnOff(cleared[i], m, f);
        done := done + {cleared[i].id};
        assert cleared[..i + 1] == cleared[..i] + [cleared[i]];
      }
      assert cleared[..|cleared|] == cleared;
    }

    method PruneLocked(removeIDs: seq<string>)
      modifies this`cameras, this`offlineSince
      ensures Guarded() == SyncPrune(old(Guarded()), Seq.IdSet(removeIDs))
    {
      for i := 0 to |removeIDs|
        invariant Guarded() == SyncPrune(old(Guarded()), Seq.IdSet(removeIDs[..i]))
      {
        hide SyncPrune;
        PruneOneMore(old(Guarded()), removeIDs, i);
        cameras := cameras - {removeIDs[i]};
        offlineSince := offlineSince - {removeIDs[i]};
      }
      assert removeIDs[..|removeIDs|] == removeIDs;
    }

    /** `streams` is None when the media server could not be asked. */
    method SyncOnce(streams: Option<seq<string>>, now: int, f: Faults)
      requires Valid() && (streams.Some? ==> "" !in streams.value)
      modifies this, obs
      ensures Valid()
      ensures View() ==
        Seq.SyncOnce(old(View()), if streams.Some? then Some(Seq.IdSet(streams.value)) else None, now, f)
    {
      ghost var was := View();
      SyncGood(was, if streams.Some? then Some(Seq.IdSet(streams.value)) else None, now, f);
      assert OneCameraOnePosition(positions) && "" !in cameras;
      hide Good, SyncMark, SyncPrune, Gone, Expired, Holders, GoneMem, SeenMem, Seq.Settle;
      if streams.None? {
        mediaConnected := false;
        return;
      }
      mediaConnected := true;
      var seen := MarkSeenLocked(streams.value, now);
      SeenKeepsGone(was.mem, seen, now);
      MarkIsSeenThenGone(was.mem, seen, now);
      var cleared, removeIDs := MarkGoneLocked(seen, now);
      TurnAllOff(cleared, was.mem, Holders(was.mem.positions, Gone(was.mem, seen)), f);
      PruneLocked(removeIDs);
    }
  }

  // ----- Switching cleared positions off, one at a time -----

  lemma SettleNothing(o: Tables, m: Mem, f: Faults)
    ensures Seq.Settle(o, m, {}, f) == o
  {
  }

  lemma SettleOne(o: Tables, m: Mem, id: string, f: Faults)
    requires id in m.positions
    ensures var off := Enable(o, id, false, f).0;
      Seq.Settle(o, m, {id}, f) == if m.positions[id].isAudio then Mute(off, id, true, f).0 else off
  {
    var settled, off := Seq.Settle(o, m, {id}, f), Enable(o, id, false, f).0;
    assert settled.enabled == off.enabled;
    assert settled.muted == if m.positions[id].isAudio && SetMuted(id) !in f then o.muted[id := true] else o.muted;
  }

  lemma SettleMore(o: Tables, m: Mem, ids: set<string>, more: set<string>, f: Faults)
    ensures Seq.Settle(Seq.Settle(o, m, ids, f), m, more, f) == Seq.Settle(o, m, ids + more, f)
  {
    SettleMoreEnabled(o, m, ids, more, f);
    SettleMoreMuted(o, m, ids, more, f);
  }

  lemma SettleMoreEnabled(o: Tables, m: Mem, ids: set<string>, more: set<string>, f: Faults)
    ensures Seq.Settle(Seq.Settle(o, m, ids, f), m, more, f).enabled == Seq.Settle(o, m, ids + more, f).enabled
  {
  }

  lemma SettleMoreMuted(o: Tables, m: Mem, ids: set<string>, more: set<string>, f: Faults)
    ensures Seq.Settle(Seq.Settle(o, m, ids, f), m, more, f).muted == Seq.Settle(o, m, ids + more, f).muted
  {
  }

  // ----- The loop that takes a camera away from every other position -----

  ghost function TakenFromOthers(ps: map<string, Position>, cid: string, rest: set<string>): map<string, Position> {
    map id | id in ps ::
      if id !in rest && id != SIMPLE && ps[id].cameraID == cid then ps[id].(cameraID := "") else ps[id]
  }

  lemma TakenOneMore(ps: map<string, Position>, cid: string, rest: set<string>, id: string)
    requires id in rest && rest <= ps.Keys
    ensures var before := TakenFromOthers(ps, cid, rest);
      && id in before && before[id] == ps[id]
      && TakenFromOthers(ps, cid, rest - {id}) ==
         (if id != SIMPLE && ps[id].cameraID == cid then before[id := ps[id].(cameraID := "")] else before)
  {
  }

  /** The flag of the previous audio position is dropped, then the new one is flagged. */
  lemma ReflagInTwoSteps(ps: map<string, Position>, pid: string, prev: string)
    ensures var dropped :=
        if prev != "" && prev != pid && prev in ps then ps[prev := ps[prev].(isAudio := false)] else ps;
      Reflag(ps, pid, prev) == if pid in dropped then dropped[pid := dropped[pid].(isAudio := true)] else dropped
  {
  }

  lemma PlanNamesCamera(m: Mem)
    ensures PlanCut(m).ShowCamera? ==> PlanCut(m).cid in m.cameras
  {
  }

  lemma UpdateSceneFrame(m: Mem, id: string, ids: seq<string>, saveOk: bool)
    ensures var m' := UpdateSceneSection(m, id, ids, saveOk).0;
      m'.live == m.live && m'.positions == m.positions
  {
  }

  // ----- The loops of a sync -----

  /** The guarded state once the streams in `seen` have been visited. */
  ghost function SeenMem(m: Mem, seen: set<string>, now: int): Mem {
    var revived := set id | id in seen && id in m.cameras && !m.cameras[id].online;
    m.(cameras := map id | id in m.cameras.Keys + seen ::
         if id !in seen then m.cameras[id]
         else if id in m.cameras then m.cameras[id].(online := true, lastSeenAt := now)
         else Camera(Names.SourceURL(m.base, id), true, now),
       offlineSince := m.offlineSince - revived)
  }

  lemma SeenOneMore(m: Mem, seen: set<string>, now: int, name: string)
    ensures var m0, m1 := SeenMem(m, seen, now), SeenMem(m, seen + {name}, now);
      && m1.cameras == m0.cameras[name :=
           if name in m0.cameras then m0.cameras[name].(online := true, lastSeenAt := now)
           else Camera(Names.SourceURL(m.base, name), true, now)]
      && m1.offlineSince ==
         (if name in m0.cameras && !m0.cameras[name].online then m0.offlineSince - {name} else m0.offlineSince)
      && m1 == m0.(cameras := m1.cameras, offlineSince := m1.offlineSince)
  {
  }

  /** The guarded state once the cameras in `gone` have been taken offline. */
  ghost function GoneMem(m: Mem, gone: set<string>, now: int): Mem {
    ClearPositions(m, Holders(m.positions, gone)).(
      cameras := map id | id in m.cameras :: if id in gone then m.cameras[id].(online := false) else m.cameras[id],
      offlineSince := map id | id in m.offlineSince.Keys + gone :: if id in gone then now else m.offlineSince[id])
  }

  /** The list names the positions in `ids`, each with the flag it had. */
  ghost predicate Lists(cleared: seq<Unassignment>, m: Mem, ids: set<string>) {
    && ids == (set u | u in cleared :: u.id)
    && (forall u :: u in cleared ==> u.id in m.positions && u.wasAudio == m.positions[u.id].isAudio)
  }

  /** A camera that was not visited yet, and the positions that hold it, are as they were. */
  lemma GoneUnvisited(m: Mem, gone: set<string>, now: int, id: string)
    requires id !in gone && id in m.cameras && id != ""
    requires OneCameraOnePosition(m.positions)
    ensures var m' := GoneMem(m, gone, now);
      && id in m'.cameras && m'.cameras[id] == m.cameras[id]
      && (id in m'.offlineSince <==> id in m.offlineSince)
      && (id in m.offlineSince ==> m'.offlineSince[id] == m.offlineSince[id])
      && OneCameraOnePosition(m'.positions)
      && Holders(m'.positions, {id}) == Holders(m.positions, {id})
      && (forall p :: p in Holders(m.positions, {id}) ==>
           p in m.positions && p in m'.positions && m'.positions[p] == m.positions[p])
  {
  }

  lemma GoneNone(m: Mem, now: int)
    ensures GoneMem(m, {}, now) == m && Lists([], m, Holders(m.positions, {}))
  {
    assert ClearPositions(m, {}).positions == m.positions;
  }

  lemma GoneOneMore(m: Mem, gone: set<string>, now: int, id: string)
    requires id !in gone && id in m.cameras && id != ""
    ensures var m' := GoneMem(m, gone, now);
      && id in m'.cameras
      && GoneMem(m, gone + {id}, now) == ClearPositions(m', Holders(m.positions, {id})).(
           cameras := m'.cameras[id := m'.cameras[id].(online := false)],
           offlineSince := m'.offlineSince[id := now])
  {
    HoldersSplit(m.positions, gone, {id});
    ClearMore(m, Holders(m.positions, gone), Holders(m.positions, {id}));
  }

  lemma HoldersSplit(ps: map<string, Position>, a: set<string>, b: set<string>)
    ensures Holders(ps, a + b) == Holders(ps, a) + Holders(ps, b)
  {
  }

  lemma ClearMore(m: Mem, a: set<string>, b: set<string>)
    ensures ClearPositions(ClearPositions(m, a), b) == ClearPositions(m, a + b)
  {
    assert ClearPositions(ClearPositions(m, a), b).positions == ClearPositions(m, a + b).positions;
  }

  lemma ListsOneMore(cleared: seq<Unassignment>, m: Mem, gone: set<string>, id: string, hit: Option<Unassignment>)
    requires Lists(cleared, m, Holders(m.positions, gone))
    requires Holders(m.positions, {id}) == if hit.Some? then {hit.value.id} else {}
    requires hit.Some? ==> hit.value.id in m.positions && hit.value.wasAudio == m.positions[hit.value.id].isAudio
    ensures Lists(if hit.Some? then cleared + [hit.value] else cleared, m, Holders(m.positions, gone + {id}))
  {
    HoldersSplit(m.positions, gone, {id});
    if hit.Some? {
      assert forall u :: u in cleared + [hit.value] <==> u in cleared || u == hit.value;
    }
  }

  lemma PruneOneMore(m: Mem, ids: seq<string>, i: nat)
    requires i < |ids|
    ensures var m' := SyncPrune(m, Seq.IdSet(ids[..i]));
      SyncPrune(m, Seq.IdSet(ids[..i + 1])) ==
        m'.(cameras := m'.cameras - {ids[i]}, offlineSince := m'.offlineSince - {ids[i]})
  {
    assert Seq.IdSet(ids[..i + 1]) == Seq.IdSet(ids[..i]) + {ids[i]};
  }

  lemma SeenKeepsGone(m: Mem, seen: set<string>, now: int)
    ensures var m' := SeenMem(m, seen, now);
      Gone(m', seen) == Gone(m, seen) && Expired(m', seen, now) == Expired(m, seen, now) && m'.positions == m.positions
  {
  }

  /** The first section of a sync is its two loops, one after the other. */
  lemma MarkIsSeenThenGone(m: Mem, seen: set<string>, now: int)
    ensures var gone := Gone(m, seen);
      SyncMark(m, seen, now, Holders(m.positions, gone)) ==
        GoneMem(SeenMem(m, seen, now), gone, now).(mediaConnected := true)
  {
    hide Holders;
    var gone := Gone(m, seen);
    var marked := GoneMem(SeenMem(m, seen, now), gone, now);
    assert MarkedCameras(m, seen, now) == marked.cameras;
    assert MarkedOffline(m, seen, now) == marked.offlineSince;
    hide MarkedCameras, MarkedOffline, Gone;
    SeenKeepsGone(m, seen, now);
  }
}
