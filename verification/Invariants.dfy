/** What every section keeps, whatever other sections run before and after it. */
module Invariants {
  import opened Model
  import Names
  import opened Sections

  // ----- Invariants of every interleaving -----

  ghost predicate CamerasSourced(base: string, cams: map<string, Camera>) {
    "" !in cams && forall id :: id in cams ==> cams[id].sourceURL == Names.SourceURL(base, id)
  }

  ghost predicate HiddenWhenReady(ps: map<string, Position>, ready: bool) {
    "" !in ps && (ready ==> SIMPLE in ps)
  }

  /** No camera is in two positions, the hidden one included. */
  ghost predicate OneCameraOnePosition(ps: map<string, Position>) {
    forall a, b :: a in ps && b in ps && ps[a].cameraID == ps[b].cameraID && ps[a].cameraID != "" ==> a == b
  }

  /** A non-empty audio id names an existing position whose flag is set. */
  ghost predicate AudioNamesFlagged(ps: map<string, Position>, audio: string) {
    audio != "" ==> audio in ps && ps[audio].isAudio
  }

  ghost predicate PositionNamesDistinct(ps: map<string, Position>) {
    forall a, b :: a in ps && b in ps && a != SIMPLE && b != SIMPLE && ps[a].name == ps[b].name ==> a == b
  }

  ghost predicate SceneNamesDistinct(ss: map<string, Scene>) {
    forall a, b :: a in ss && b in ss && ss[a].name == ss[b].name ==> a == b
  }

  ghost predicate PreviewSceneExists(live: LiveState, ss: map<string, Scene>) {
    live.previewKind == KindScene ==> live.previewID in ss
  }

  /** A stored scene list has no duplicates, no empty id and not the reserved id. */
  ghost predicate CleanList(ids: seq<string>) {
    && "" !in ids && SIMPLE !in ids
    && (forall i, j :: 0 <= i < j < |ids| ==> ids[i] != ids[j])
  }

  ghost predicate SceneListsClean(ss: map<string, Scene>) {
    forall id :: id in ss ==> CleanList(ss[id].positionIDs)
  }

  /** When the latest save succeeded, the file is the enumeration of what is in memory. */
  ghost predicate PositionFileAgrees(st: Store<PositionDef>, ps: map<string, Position>) {
    st.ok ==> st.saved == PositionDefs(ps)
  }

  ghost predicate SceneFileAgrees(st: Store<SceneDef>, ss: map<string, Scene>) {
    st.ok ==> st.saved == SceneDefs(ss)
  }

  ghost predicate Inv(m: Mem) {
    && CamerasSourced(m.base, m.cameras)
    && HiddenWhenReady(m.positions, m.hiddenReady)
    && OneCameraOnePosition(m.positions)
    && AudioNamesFlagged(m.positions, m.audio)
    && PositionNamesDistinct(m.positions)
    && SceneNamesDistinct(m.scenes)
    && PreviewSceneExists(m.live, m.scenes)
    && SceneListsClean(m.scenes)
    && PositionFileAgrees(m.positionStore, m.positions)
    && SceneFileAgrees(m.sceneStore, m.scenes)
  }

  // ----- Invariants of every sequential run -----

  /** A flag is set on exactly the position the audio id names. */
  ghost predicate AudioExact(ps: map<string, Position>, audio: string) {
    && "" !in ps
    && (audio != "" ==> audio in ps)
    && (forall id :: id in ps ==> (ps[id].isAudio <==> id == audio))
  }

  /** A position holds nothing or a known online camera. */
  ghost predicate OnlineOccupied(ps: map<string, Position>, cams: map<string, Camera>) {
    forall id :: id in ps && ps[id].cameraID != "" ==> ps[id].cameraID in cams && cams[ps[id].cameraID].online
  }

  ghost predicate LiveSceneExists(live: LiveState, ss: map<string, Scene>) {
    live.liveKind == KindScene ==> live.liveID in ss
  }

  // ----- Lemmas about the pieces -----

  /** Runtime fields do not reach the position file. */
  lemma DefsDependOnNames(a: map<string, Position>, b: map<string, Position>)
    requires a.Keys - {SIMPLE} == b.Keys - {SIMPLE}
    requires forall id :: id in a && id in b && id != SIMPLE ==> a[id].name == b[id].name
    ensures PositionDefs(a) == PositionDefs(b)
  {
    var ids := Names.SortedIds(a.Keys - {SIMPLE});
    Names.SortedIdsExact(a.Keys - {SIMPLE});
    forall i | 0 <= i < |ids| ensures PositionDefs(a)[i] == PositionDefs(b)[i] {
      assert ids[i] in ids;
    }
  }

  /** Under the invariant, stopping at the first hit clears every holder: the early break is complete. */
  lemma FirstHitsAreAll(ps: map<string, Position>, cams: set<string>, except: set<string>, hits: set<string>)
    requires OneCameraOnePosition(ps) && "" !in cams
    ensures FirstHits(ps, cams, except, hits) <==> hits == Holders(ps, cams) - except
  {
    if FirstHits(ps, cams, except, hits) {
      forall id | id in Holders(ps, cams) - except ensures id in hits {
        var h :| h in hits && ps[h].cameraID == ps[id].cameraID;
        assert h in Holders(ps, cams);
      }
    }
  }

  lemma {:induction false} DedupeClean(ids: seq<string>)
    ensures "" !in Dedupe(ids)
    ensures forall x :: x in Dedupe(ids) ==> x in ids
    ensures forall i, j :: 0 <= i < j < |Dedupe(ids)| ==> Dedupe(ids)[i] != Dedupe(ids)[j]
  {
    if ids != [] {
      DedupeClean(ids[..|ids| - 1]);
    }
  }

  /** The position of the first occurrence of x. */
  function FirstIndex(ids: seq<string>, x: string): (i: nat)
    requires x in ids
    ensures i < |ids| && ids[i] == x && forall k :: 0 <= k < i ==> ids[k] != x
  {
    if ids[0] == x then 0 else FirstIndex(ids[1..], x) + 1
  }

  /** Dedupe keeps exactly the non-empty ids, in the order of their first occurrences. */
  lemma {:induction false} DedupeKeepsFirstOccurrences(ids: seq<string>)
    ensures forall x :: x in Dedupe(ids) <==> x in ids && x != ""
    ensures forall i, j :: 0 <= i < j < |Dedupe(ids)| ==>
      Dedupe(ids)[i] in ids && Dedupe(ids)[j] in ids &&
        FirstIndex(ids, Dedupe(ids)[i]) < FirstIndex(ids, Dedupe(ids)[j])
  {
    if ids != [] {
      var init, last := ids[..|ids| - 1], ids[|ids| - 1];
      DedupeKeepsFirstOccurrences(init);
      assert ids == init + [last];
      forall x | x in init ensures x in ids && FirstIndex(ids, x) == FirstIndex(init, x) {
        var i, j := FirstIndex(ids, x), FirstIndex(init, x);
        assert ids[j] == x;
        assert i <= j;
        assert init[i] == ids[i];
      }
      forall x ensures x in Dedupe(ids) <==> x in ids && x != "" {
        assert x in ids <==> x in init || x == last;
      }
    }
  }

  lemma {:induction false} ValidIDsExist(m: Mem, ids: seq<string>)
    ensures ValidateSceneIDs(m, ids).Ok? <==> forall x :: x in ids ==> x != SIMPLE && x in m.positions
  {
    if ids != [] {
      ValidIDsExist(m, ids[1..]);
      assert forall x :: x in ids <==> x == ids[0] || x in ids[1..];
    }
  }

  lemma {:induction false} ExistingIsFilter(m: Mem, ids: seq<string>)
    ensures forall x :: x in Existing(m, ids) <==> x in ids && x in m.positions && x != SIMPLE
  {
    if ids != [] {
      ExistingIsFilter(m, ids[..|ids| - 1]);
      assert forall x :: x in ids <==> x in ids[..|ids| - 1] || x == ids[|ids| - 1];
    }
  }

  // ----- Every section keeps the invariant -----

  /** Changing only the runtime fields of positions. */
  lemma RuntimeKeeps(m: Mem, ps: map<string, Position>, audio: string)
    requires Inv(m)
    requires ps.Keys == m.positions.Keys && forall id :: id in ps ==> ps[id].name == m.positions[id].name
    requires OneCameraOnePosition(ps) && AudioNamesFlagged(ps, audio)
    ensures Inv(m.(positions := ps, audio := audio))
  {
    DefsDependOnNames(m.positions, ps);
    hide PositionDefs, SceneDefs, OneCameraOnePosition, AudioNamesFlagged;
    hide CamerasSourced, SceneNamesDistinct, PreviewSceneExists, SceneListsClean;
  }

  lemma ClearKeeps(m: Mem, hits: set<string>)
    requires Inv(m)
    ensures Inv(ClearPositions(m, hits))
  {
    hide PositionDefs, SceneDefs, PositionNamesDistinct;
    var m' := ClearPositions(m, hits);
    RuntimeKeeps(m, m'.positions, m'.audio);
  }

  /** Storing and saving a new table of positions. */
  lemma SavingPositionsKeeps(m: Mem, ps: map<string, Position>, audio: string, ok: bool)
    requires Inv(m)
    requires HiddenWhenReady(ps, m.hiddenReady) && OneCameraOnePosition(ps)
    requires AudioNamesFlagged(ps, audio) && PositionNamesDistinct(ps)
    ensures Inv(PersistPositions(m.(positions := ps, audio := audio), ok))
  {
    hide PositionDefs, SceneDefs, HiddenWhenReady, OneCameraOnePosition, AudioNamesFlagged, PositionNamesDistinct;
    hide CamerasSourced, SceneNamesDistinct, PreviewSceneExists, SceneListsClean;
  }

  /** Storing and saving a new table of scenes. */
  lemma SavingScenesKeeps(m: Mem, ss: map<string, Scene>, live: LiveState, ok: bool)
    requires Inv(m)
    requires SceneNamesDistinct(ss) && PreviewSceneExists(live, ss) && SceneListsClean(ss)
    ensures Inv(PersistScenes(m.(scenes := ss, live := live), ok))
  {
    hide PositionDefs, SceneDefs, HiddenWhenReady, OneCameraOnePosition, AudioNamesFlagged, PositionNamesDistinct;
    hide CamerasSourced, SceneNamesDistinct, PreviewSceneExists, SceneListsClean;
  }

  lemma CreateKeeps(m: Mem, id: string, name: string, saveOk: bool)
    requires Inv(m)
    requires id !in m.positions && id != "" && id != SIMPLE
    ensures Inv(CreateCommit(m, id, name, saveOk).0)
    ensures CreateCommit(m, id, name, saveOk).1.Err? ==>
      CreateCommit(m, id, name, saveOk).0.positions == m.positions &&
        CreateCommit(m, id, name, saveOk).0.positionStore.saved == m.positionStore.saved
  {
    hide PositionDefs, SceneDefs;
    var ps := m.positions[id := Position(name, "", false)];
    assert ps - {id} == m.positions;
    if saveOk && !PositionNameIsTaken(m, name, SIMPLE) {
      SavingPositionsKeeps(m, ps, m.audio, saveOk);
    }
  }

  lemma RenameKeeps(m: Mem, id: string, name: string, saveOk: bool)
    requires Inv(m)
    ensures Inv(RenameSection(m, id, name, saveOk).0)
  {
    hide PositionDefs, SceneDefs;
    if id in m.positions && id != SIMPLE && !PositionNameIsTaken(m, name, id) {
      SavingPositionsKeeps(m, m.positions[id := m.positions[id].(name := name)], m.audio, saveOk);
    }
  }

  lemma DeleteKeeps(m: Mem, id: string, saveOk: bool)
    requires Inv(m) && id != SIMPLE
    ensures Inv(DeleteCommit(m, id, saveOk).0)
  {
    hide PositionDefs, SceneDefs;
    SavingPositionsKeeps(m, m.positions - {id}, if m.audio == id then "" else m.audio, saveOk);
  }

  /** A camera that nobody else holds may be given to one position. */
  lemma AssignedOnce(ps: map<string, Position>, pid: string, cid: string)
    requires OneCameraOnePosition(ps) && pid in ps && forall id :: id in ps && id != pid ==> ps[id].cameraID != cid
    ensures OneCameraOnePosition(ps[pid := ps[pid].(cameraID := cid)])
  {}

  lemma GivenKeeps(m: Mem, pid: string, cid: string)
    requires Inv(m) && pid in m.positions && forall id :: id in m.positions && id != pid ==>
      m.positions[id].cameraID != cid
    ensures Inv(m.(positions := m.positions[pid := m.positions[pid].(cameraID := cid)]))
  {
    var ps := m.positions[pid := m.positions[pid].(cameraID := cid)];
    AssignedOnce(m.positions, pid, cid);
    assert AudioNamesFlagged(ps, m.audio);
    hide OneCameraOnePosition, AudioNamesFlagged, PositionNamesDistinct, PositionDefs, SceneDefs;
    RuntimeKeeps(m, ps, m.audio);
    hide Inv;
  }

  /** Once the other holders are cleared, nobody else holds the camera. */
  lemma ClearedOthers(m: Mem, pid: string, cid: string)
    requires cid != ""
    ensures var ps := ClearPositions(m, Holders(m.positions, {cid}) - {pid}).positions;
      forall id :: id in ps && id != pid ==> ps[id].cameraID != cid
  {}

  lemma AssignKeeps(m: Mem, pid: string, cid: string, hits: set<string>)
    requires Inv(m) && cid != ""
    requires FirstHits(m.positions, {cid}, {pid}, hits)
    ensures Inv(AssignCommit(m, pid, cid, hits).0)
  {
    if pid in m.positions {
      FirstHitsAreAll(m.positions, {cid}, {pid}, hits);
      ClearKeeps(m, hits);
      ClearedOthers(m, pid, cid);
      var c := ClearPositions(m, hits);
      assert pid in c.positions;
      hide Inv, ClearPositions, FirstHits, Holders;
      GivenKeeps(c, pid, cid);
    }
  }

  lemma UnassignKeeps(m: Mem, pid: string)
    requires Inv(m)
    ensures Inv(UnassignCommit(m, pid).0)
  {
    ClearKeeps(m, {pid});
  }

  lemma AudioKeeps(m: Mem, pid: string, prev: string)
    requires Inv(m) && pid in m.positions
    ensures Inv(AudioInternalCommit(m, pid, prev))
  {
    hide PositionDefs, SceneDefs, PositionNamesDistinct;
    RuntimeKeeps(m, Reflag(m.positions, pid, prev), pid);
  }

  /** Whatever was stored, the ids that pass validation after deduplication make a clean list. */
  lemma ValidDedupedIsClean(m: Mem, ids: seq<string>)
    ensures ValidateSceneIDs(m, Dedupe(ids)).Ok? ==> CleanList(Dedupe(ids))
  {
    DedupeClean(ids);
    ValidIDsExist(m, Dedupe(ids));
  }

  lemma CreateSceneKeeps(m: Mem, id: string, name: string, ids: seq<string>, saveOk: bool)
    requires Inv(m) && id !in m.scenes
    requires ValidateSceneIDs(m, ids).Ok? ==> CleanList(ids)
    ensures Inv(CreateSceneSection(m, id, name, ids, saveOk).0)
    ensures var r := CreateSceneSection(m, id, name, ids, saveOk);
      r.1.Err? ==> r.0.scenes == m.scenes && r.0.sceneStore.saved == m.sceneStore.saved
  {
    hide PositionDefs, SceneDefs, ValidateSceneIDs, CleanList;
    var ss := m.scenes[id := Scene(name, ids)];
    assert ss - {id} == m.scenes;
    if CreateSceneSection(m, id, name, ids, saveOk).1.Ok? {
      SavingScenesKeeps(m, ss, m.live, saveOk);
    }
  }

  lemma RenameSceneKeeps(m: Mem, id: string, name: string, saveOk: bool)
    requires Inv(m)
    ensures Inv(RenameSceneSection(m, id, name, saveOk).0)
  {
    hide PositionDefs, SceneDefs, CleanList;
    if id in m.scenes && !SceneNameIsTaken(m, name, id) {
      SavingScenesKeeps(m, m.scenes[id := m.scenes[id].(name := name)], m.live, saveOk);
    }
  }

  lemma UpdateSceneKeeps(m: Mem, id: string, ids: seq<string>, saveOk: bool)
    requires Inv(m)
    requires ValidateSceneIDs(m, ids).Ok? ==> CleanList(ids)
    ensures Inv(UpdateSceneSection(m, id, ids, saveOk).0)
  {
    hide PositionDefs, SceneDefs, ValidateSceneIDs, CleanList;
    if id in m.scenes && ValidateSceneIDs(m, ids).Ok? {
      SavingScenesKeeps(m, m.scenes[id := m.scenes[id].(positionIDs := ids)], m.live, saveOk);
    }
  }

  lemma DeleteSceneKeeps(m: Mem, id: string, saveOk: bool)
    requires Inv(m)
    ensures Inv(DeleteSceneSection(m, id, saveOk).0)
  {
    hide PositionDefs, SceneDefs, CleanList;
    if id in m.scenes && !(m.live.liveKind == KindScene && m.live.liveID == id) {
      SavingScenesKeeps(m, m.scenes - {id}, DeleteSceneSection(m, id, saveOk).0.live, saveOk);
    }
  }

  lemma PreviewKeeps(m: Mem, id: string)
    requires Inv(m)
    ensures Inv(PreviewCameraSection(m, id).0)
    ensures Inv(PreviewSceneSection(m, id).0)
  {
    hide PositionDefs, SceneDefs;
  }

  lemma HiddenKeeps(m: Mem)
    requires Inv(m)
    ensures Inv(HiddenCommit(m)) && HiddenPresent(HiddenCommit(m))
  {
    hide PositionDefs, SceneDefs;
    DefsDependOnNames(m.positions, HiddenCommit(m).positions);
  }

  lemma CutKeeps(m: Mem, id: string)
    requires Inv(m)
    ensures Inv(CutCameraCommit(m, id))
    ensures Inv(CutSceneCommit(m, id))
  {
    hide PositionDefs, SceneDefs, PositionNamesDistinct;
    RuntimeKeeps(m, CutCameraCommit(m, id).positions, m.audio);
  }

  lemma SyncKeeps(m: Mem, seen: set<string>, now: int, hits: set<string>)
    requires Inv(m) && "" !in seen
    ensures Inv(SyncMark(m, seen, now, hits))
    ensures Inv(SyncFailed(m))
  {
    hide PositionDefs, SceneDefs;
    ClearKeeps(m, hits);
  }

  lemma PruneKeeps(m: Mem, ids: set<string>)
    requires Inv(m)
    ensures Inv(SyncPrune(m, ids))
  {
    hide PositionDefs, SceneDefs;
  }

  // ----- What each section does to the sequential invariants -----

  ghost predicate Strong(m: Mem) {
    && AudioExact(m.positions, m.audio)
    && OnlineOccupied(m.positions, m.cameras)
    && LiveSceneExists(m.live, m.scenes)
  }

  predicate Online(m: Mem, cid: string) { cid in m.cameras && m.cameras[cid].online }

  lemma ClearStrong(m: Mem, hits: set<string>)
    requires Strong(m)
    ensures Strong(ClearPositions(m, hits))
  {}

  /** AssignCamera's commit keeps occupancy exactly when the camera is still online. */
  lemma AssignStrong(m: Mem, pid: string, cid: string, hits: set<string>)
    requires Strong(m) && pid in m.positions && cid != ""
    ensures Strong(AssignCommit(m, pid, cid, hits).0) <==> Online(m, cid)
  {
    ClearStrong(m, hits);
    var m' := ClearPositions(m, hits);
    var m'' := AssignCommit(m, pid, cid, hits).0;
    assert m''.positions[pid].cameraID == cid;
    assert forall id :: id in m''.positions && id != pid ==> m''.positions[id] == m'.positions[id];
  }

  /** The audio commit keeps the flag unique exactly when the audio position read before is not stale. */
  lemma AudioStrong(m: Mem, pid: string, prev: string)
    requires Strong(m) && pid in m.positions
    ensures Strong(AudioInternalCommit(m, pid, prev)) <==> m.audio in {"", prev, pid}
  {
    var ps := Reflag(m.positions, pid, prev);
    assert m.audio != "" ==> m.audio in ps;
  }

  /** A camera cut's commit keeps occupancy exactly when the camera is still online. */
  lemma CutCameraStrong(m: Mem, cid: string)
    requires Strong(m) && SIMPLE in m.positions && cid != ""
    ensures Strong(CutCameraCommit(m, cid)) <==> Online(m, cid)
  {
    assert CutCameraCommit(m, cid).positions[SIMPLE].cameraID == cid;
  }

  /** A scene cut's commit keeps the live scene in existence exactly when the scene was not deleted since. */
  lemma CutSceneStrong(m: Mem, sid: string)
    requires Strong(m)
    ensures Strong(CutSceneCommit(m, sid)) <==> sid in m.scenes
  {}

  lemma SyncMarkStrong(m: Mem, seen: set<string>, now: int, hits: set<string>)
    requires Inv(m) && Strong(m)
    requires FirstHits(m.positions, Gone(m, seen), {}, hits)
    ensures Strong(SyncMark(m, seen, now, hits))
  {
    hide PositionDefs, SceneDefs;
    FirstHitsAreAll(m.positions, Gone(m, seen), {}, hits);
    ClearStrong(m, hits);
  }

  /** Pruning keeps occupancy exactly when no position holds a pruned camera. */
  lemma PruneStrong(m: Mem, ids: set<string>)
    requires Strong(m) && "" !in ids
    ensures Strong(SyncPrune(m, ids)) <==> Holders(m.positions, ids) == {}
  {
    assert forall id :: id in m.positions && m.positions[id].cameraID in ids ==> id in Holders(m.positions, ids);
  }

  /** The remaining sections keep the sequential invariants unconditionally. */
  lemma CreateStrong(m: Mem, id: string, name: string, saveOk: bool)
    requires Strong(m) && id !in m.positions && id != ""
    ensures Strong(CreateCommit(m, id, name, saveOk).0)
  {
    hide PositionDefs, SceneDefs;
  }

  lemma UnassignStrong(m: Mem, pid: string)
    requires Strong(m)
    ensures Strong(UnassignCommit(m, pid).0)
  {
    ClearStrong(m, {pid});
  }

  lemma RenameStrong(m: Mem, id: string, name: string, saveOk: bool)
    requires Strong(m)
    ensures Strong(RenameSection(m, id, name, saveOk).0)
  {
    hide PositionDefs, SceneDefs;
  }

  lemma DeleteStrong(m: Mem, id: string, saveOk: bool)
    requires Strong(m)
    ensures Strong(DeleteCommit(m, id, saveOk).0)
  {
    hide PositionDefs, SceneDefs;
  }

  lemma HiddenStrong(m: Mem)
    requires Strong(m)
    ensures Strong(HiddenCommit(m))
  {}

  lemma StoreSceneStrong(m: Mem, id: string, name: string, ids: seq<string>, saveOk: bool)
    requires Strong(m)
    ensures id !in m.scenes ==> Strong(CreateSceneSection(m, id, name, ids, saveOk).0)
    ensures Strong(UpdateSceneSection(m, id, ids, saveOk).0)
  {
    hide PositionDefs, SceneDefs, ValidateSceneIDs;
  }

  lemma RenameOrDeleteSceneStrong(m: Mem, id: string, name: string, saveOk: bool)
    requires Strong(m)
    ensures Strong(RenameSceneSection(m, id, name, saveOk).0)
    ensures Strong(DeleteSceneSection(m, id, saveOk).0)
  {
    hide PositionDefs, SceneDefs;
  }

  lemma PreviewStrong(m: Mem, id: string)
    requires Strong(m)
    ensures Strong(PreviewCameraSection(m, id).0) && Strong(PreviewSceneSection(m, id).0)
  {}
}
