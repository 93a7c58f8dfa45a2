/** What each section of the orchestrator that holds the mutex does to the guarded state.

    The sequential model composes these sections into whole operations; the interleaved model runs them
    as atomic steps of concurrent threads. A section that the source writes as a loop which stops at the
    first match takes the set of positions the loop hit, whatever order the map is iterated in. */
module Sections {
  import opened Model
  import Names

  // ----- Stores -----

  /** What persistPositionsLocked writes: the public positions in ascending order of id. */
  ghost function PositionDefs(ps: map<string, Position>): seq<PositionDef> {
    var ids := Names.SortedIds(ps.Keys - {SIMPLE});
    Names.SortedIdsExact(ps.Keys - {SIMPLE});
    seq(|ids|, i requires 0 <= i < |ids| => assert ids[i] in ids; PositionDef(ids[i], ps[ids[i]].name))
  }

  ghost function SceneDefs(ss: map<string, Scene>): seq<SceneDef> {
    var ids := Names.SortedIds(ss.Keys);
    Names.SortedIdsExact(ss.Keys);
    seq(|ids|, i requires 0 <= i < |ids| =>
      assert ids[i] in ids; SceneDef(ids[i], ss[ids[i]].name, ss[ids[i]].positionIDs))
  }

  ghost function PersistPositions(m: Mem, ok: bool): Mem {
    m.(positionStore := Store(if ok then PositionDefs(m.positions) else m.positionStore.saved, ok))
  }

  ghost function PersistScenes(m: Mem, ok: bool): Mem {
    m.(sceneStore := Store(if ok then SceneDefs(m.scenes) else m.sceneStore.saved, ok))
  }

  // ----- Clearing cameras out of positions -----

  /** The positions that hold one of the given cameras. */
  function Holders(ps: map<string, Position>, cams: set<string>): set<string> {
    set id | id in ps && ps[id].cameraID in cams
  }

  /** The loop looks for each camera among the positions other than `except` and stops at its first hit:
      it hits exactly one holder of every camera that has one. */
  ghost predicate FirstHits(ps: map<string, Position>, cams: set<string>, except: set<string>, hits: set<string>) {
    && hits <= Holders(ps, cams) - except
    && (forall id :: id in Holders(ps, cams) - except ==> exists h :: h in hits && ps[h].cameraID == ps[id].cameraID)
    && (forall a, b :: a in hits && b in hits && ps[a].cameraID == ps[b].cameraID ==> a == b)
  }

  function ClearPositions(m: Mem, hits: set<string>): Mem {
    m.(positions := map id | id in m.positions ::
         if id in hits then m.positions[id].(cameraID := "", isAudio := false) else m.positions[id],
       audio := if exists id :: id in hits && id in m.positions && m.positions[id].isAudio then "" else m.audio)
  }

  // ----- Positions -----

  predicate PositionNameIsTaken(m: Mem, name: string, except: string) {
    exists id :: id in m.positions && id != SIMPLE && id != except && m.positions[id].name == name
  }

  /** Second section of CreatePosition: checks the name again, registers, saves, and undoes on a failed save. */
  ghost function CreateCommit(m: Mem, id: string, name: string, saveOk: bool): (Mem, Outcome<Position>) {
    if PositionNameIsTaken(m, name, SIMPLE) then (m, Err(PositionNameTaken))
    else
      var p := Position(name, "", false);
      var m' := PersistPositions(m.(positions := m.positions[id := p]), saveOk);
      if saveOk then (m', Ok(p)) else (m'.(positions := m'.positions - {id}), Err(SaveFailed))
  }

  /** RenamePosition after validation; a failed save leaves the new name in memory. */
  ghost function RenameSection(m: Mem, id: string, name: string, saveOk: bool): (Mem, Outcome<Position>) {
    if id !in m.positions || id == SIMPLE then (m, Err(PositionNotFound))
    else if m.positions[id].name == name then (m, Ok(m.positions[id]))
    else if PositionNameIsTaken(m, name, id) then (m, Err(PositionNameTaken))
    else
      var p := m.positions[id].(name := name);
      var m' := PersistPositions(m.(positions := m.positions[id := p]), saveOk);
      (m', if saveOk then Ok(p) else Err(SaveFailed))
  }

  /** Second section of DeletePosition; a failed save leaves the position deleted in memory. */
  ghost function DeleteCommit(m: Mem, id: string, saveOk: bool): (Mem, Outcome<()>) {
    if id !in m.positions then (m, Err(PositionNotFound))
    else
      var audio := if m.audio == id then "" else m.audio;
      var m' := PersistPositions(m.(positions := m.positions - {id}, audio := audio), saveOk);
      (m', if saveOk then Ok(()) else Err(SaveFailed))
  }

  /** Second section of AssignCamera: takes the camera away from the position hit, then assigns it. */
  function AssignCommit(m: Mem, pid: string, cid: string, hits: set<string>): (Mem, Outcome<Position>) {
    if pid !in m.positions then (m, Err(PositionNotFound))
    else
      var m' := ClearPositions(m, hits);
      var p := m'.positions[pid].(cameraID := cid);
      (m'.(positions := m'.positions[pid := p]), Ok(p))
  }

  /** Second section of UnassignPosition. */
  function UnassignCommit(m: Mem, pid: string): (Mem, Outcome<Position>) {
    if pid !in m.positions then (m, Err(PositionNotFound))
    else
      var m' := ClearPositions(m, {pid});
      (m', Ok(m'.positions[pid]))
  }

  /** Flags pid, and drops the flag of the audio position that was read before when that is another one. */
  function Reflag(ps: map<string, Position>, pid: string, prev: string): map<string, Position> {
    map id | id in ps :: if id == pid then ps[id].(isAudio := true)
                         else if id == prev && prev != "" then ps[id].(isAudio := false)
                         else ps[id]
  }

  /** Second section of SetAudioPosition; `prev` is the audio position read in the first. */
  function AudioCommit(m: Mem, pid: string, prev: string): (Mem, Outcome<Position>) {
    if pid !in m.positions then (m, Err(PositionNotFound))
    else
      var ps := Reflag(m.positions, pid, prev);
      (m.(positions := ps, audio := pid), Ok(ps[pid]))
  }

  /** Second section of setAudioPositionInternal: the audio id is set even for an unknown position. */
  function AudioInternalCommit(m: Mem, pid: string, prev: string): Mem {
    m.(positions := Reflag(m.positions, pid, prev), audio := pid)
  }

  // ----- Scenes -----

  /** First occurrences of the non-empty ids, in order. */
  function Dedupe(ids: seq<string>): seq<string> {
    if ids == [] then []
    else
      var rest := Dedupe(ids[..|ids| - 1]);
      var last := ids[|ids| - 1];
      if last == "" || last in rest then rest else rest + [last]
  }

  /** The first id, in order, that is reserved or unknown decides the error. */
  function ValidateSceneIDs(m: Mem, ids: seq<string>): Outcome<()> {
    if ids == [] then Ok(())
    else if ids[0] == SIMPLE then Err(ReservedPosition)
    else if ids[0] !in m.positions then Err(PositionNotFound)
    else ValidateSceneIDs(m, ids[1..])
  }

  predicate SceneNameIsTaken(m: Mem, name: string, except: string) {
    exists id :: id in m.scenes && id != except && m.scenes[id].name == name
  }

  /** CreateScene after the name was trimmed and the ids deduplicated. */
  ghost function CreateSceneSection(m: Mem, id: string, name: string, ids: seq<string>, saveOk: bool)
    : (Mem, Outcome<Scene>)
  {
    if exists k :: k in m.scenes && m.scenes[k].name == name then (m, Err(SceneNameTaken))
    else if ValidateSceneIDs(m, ids).Err? then (m, Err(ValidateSceneIDs(m, ids).error))
    else
      var s := Scene(name, ids);
      var m' := PersistScenes(m.(scenes := m.scenes[id := s]), saveOk);
      if saveOk then (m', Ok(s)) else (m'.(scenes := m'.scenes - {id}), Err(SaveFailed))
  }

  ghost function RenameSceneSection(m: Mem, id: string, name: string, saveOk: bool): (Mem, Outcome<Scene>) {
    if id !in m.scenes then (m, Err(SceneNotFound))
    else if m.scenes[id].name == name then (m, Ok(m.scenes[id]))
    else if SceneNameIsTaken(m, name, id) then (m, Err(SceneNameTaken))
    else
      var s := m.scenes[id].(name := name);
      var m' := PersistScenes(m.(scenes := m.scenes[id := s]), saveOk);
      (m', if saveOk then Ok(s) else Err(SaveFailed))
  }

  /** UpdateScenePositions up to its unlock; a failed save leaves the new list in memory. */
  ghost function UpdateSceneSection(m: Mem, id: string, ids: seq<string>, saveOk: bool): (Mem, Outcome<Scene>) {
    if id !in m.scenes then (m, Err(SceneNotFound))
    else if ValidateSceneIDs(m, ids).Err? then (m, Err(ValidateSceneIDs(m, ids).error))
    else
      var s := m.scenes[id].(positionIDs := ids);
      var m' := PersistScenes(m.(scenes := m.scenes[id := s]), saveOk);
      (m', if saveOk then Ok(s) else Err(SaveFailed))
  }

  ghost function DeleteSceneSection(m: Mem, id: string, saveOk: bool): (Mem, Outcome<()>) {
    if id !in m.scenes then (m, Err(SceneNotFound))
    else if m.live.liveKind == KindScene && m.live.liveID == id then (m, Err(SceneIsLive))
    else
      var live := if m.live.previewKind == KindScene && m.live.previewID == id
                  then m.live.(previewKind := KindNone, previewID := "") else m.live;
      var m' := PersistScenes(m.(scenes := m.scenes - {id}, live := live), saveOk);
      (m', if saveOk then Ok(()) else Err(SaveFailed))
  }

  // ----- Preview and cut -----

  function PreviewCameraSection(m: Mem, cid: string): (Mem, Outcome<LiveState>) {
    if cid !in m.cameras then (m, Err(CameraNotFound))
    else
      var live := m.live.(previewKind := KindCamera, previewID := cid);
      (m.(live := live), Ok(live))
  }

  function PreviewSceneSection(m: Mem, sid: string): (Mem, Outcome<LiveState>) {
    if sid !in m.scenes then (m, Err(SceneNotFound))
    else
      var live := m.live.(previewKind := KindScene, previewID := sid);
      (m.(live := live), Ok(live))
  }

  /** Second section of ensureHiddenPosition. */
  function HiddenCommit(m: Mem): Mem {
    m.(positions := if SIMPLE in m.positions then m.positions else m.positions[SIMPLE := Position(SIMPLE, "", false)],
       hiddenReady := true)
  }

  function HiddenPresent(m: Mem): bool { m.hiddenReady && SIMPLE in m.positions }

  /** What Cut decides in its first section. */
  datatype CutPlan =
    | Refuse(error: Error)
    | AlreadyLive
    | ShowCamera(cid: string)
    | ShowScene(sid: string, enable: seq<string>)

  /** The ids of a scene that are public positions which exist. */
  function Existing(m: Mem, ids: seq<string>): seq<string> {
    if ids == [] then []
    else
      var rest := Existing(m, ids[..|ids| - 1]);
      var last := ids[|ids| - 1];
      if last in m.positions && last != SIMPLE then rest + [last] else rest
  }

  predicate HoldsOffline(m: Mem, pid: string)
    requires pid in m.positions
  {
    var cid := m.positions[pid].cameraID;
    cid != "" && cid in m.cameras && !m.cameras[cid].online
  }

  function PlanCut(m: Mem): CutPlan {
    var live := m.live;
    if live.previewKind == KindNone || live.previewID == "" then Refuse(PreviewEmpty)
    else if live.liveKind == live.previewKind && live.liveID == live.previewID then AlreadyLive
    else if live.previewKind == KindCamera then
      if live.previewID !in m.cameras then Refuse(CameraNotFound)
      else if !m.cameras[live.previewID].online then Refuse(SourceUnavailable)
      else ShowCamera(live.previewID)
    else
      if live.previewID !in m.scenes then Refuse(SceneNotFound)
      else
        var ids := m.scenes[live.previewID].positionIDs;
        if exists pid :: pid in ids && pid in m.positions && pid != SIMPLE && HoldsOffline(m, pid)
        then Refuse(SourceUnavailable)
        else ShowScene(live.previewID, Existing(m, ids))
  }

  /** Last section of a camera cut: the camera leaves every other position; their audio flags stay. */
  function CutCameraCommit(m: Mem, cid: string): Mem {
    var moved := map id | id in m.positions ::
      if id == SIMPLE then m.positions[id].(cameraID := cid)
      else if m.positions[id].cameraID == cid then m.positions[id].(cameraID := "")
      else m.positions[id];
    var ps := if SIMPLE in m.positions then moved else m.positions;
    m.(positions := ps, live := m.live.(liveKind := KindCamera, liveID := cid))
  }

  function CutSceneCommit(m: Mem, sid: string): Mem {
    m.(live := m.live.(liveKind := KindScene, liveID := sid))
  }

  // ----- Sync -----

  /** Cameras that were online and are missing from the streams. */
  function Gone(m: Mem, seen: set<string>): set<string> {
    set id | id in m.cameras && id !in seen && m.cameras[id].online
  }

  /** Cameras that have been offline, and still are, for long enough to be pruned. */
  function Expired(m: Mem, seen: set<string>, now: int): set<string> {
    set id | id in m.cameras && id !in seen && !m.cameras[id].online &&
             id in m.offlineSince && now - m.offlineSince[id] >= OFFLINE_REMOVE_AFTER
  }

  function SyncFailed(m: Mem): Mem { m.(mediaConnected := false) }

  /** The camera table after the first section of a sync. */
  function MarkedCameras(m: Mem, seen: set<string>, now: int): map<string, Camera> {
    map id | id in m.cameras.Keys + seen ::
      if id in seen then
        if id in m.cameras then m.cameras[id].(online := true, lastSeenAt := now)
        else Camera(Names.SourceURL(m.base, id), true, now)
      else m.cameras[id].(online := false)
  }

  function MarkedOffline(m: Mem, seen: set<string>, now: int): map<string, int> {
    var revived := set id | id in seen && id in m.cameras && !m.cameras[id].online;
    map id | id in m.offlineSince.Keys - revived + Gone(m, seen) ::
      if id in Gone(m, seen) then now else m.offlineSince[id]
  }

  /** First section of SyncOnce: refreshes the cameras and clears the positions the offline hook hit. */
  function SyncMark(m: Mem, seen: set<string>, now: int, hits: set<string>): Mem {
    ClearPositions(m, hits).(cameras := MarkedCameras(m, seen, now),
                             offlineSince := MarkedOffline(m, seen, now),
                             mediaConnected := true)
  }

  /** Second section of SyncOnce: prunes the cameras collected in the first. */
  function SyncPrune(m: Mem, ids: set<string>): Mem {
    m.(cameras := m.cameras - ids, offlineSince := m.offlineSince - ids)
  }
}
