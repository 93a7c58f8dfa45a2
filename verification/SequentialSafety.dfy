/** What holds after every sequential run, whatever calls the environment fails. */
module SequentialSafety {
  import opened Options
  import opened Model
  import Names
  import opened Obs
  import opened Sections
  import opened Invariants
  import opened Sequential

  ghost predicate Good(m: Mem) { Inv(m) && Strong(m) }

  lemma CreateGood(s: Sys, name: string, id: string, f: Faults)
    requires Good(s.mem) && id !in s.mem.positions && id != "" && id != SIMPLE
    ensures Good(CreatePosition(s, name, id, f).0.mem)
  {
    var v := Names.ValidatePositionName(name);
    if v.Ok? {
      CreateKeeps(s.mem, id, v.value, SavePositions !in f);
      CreateStrong(s.mem, id, v.value, SavePositions !in f);
    }
    hide Inv, Strong, CreateCommit, Names.ValidatePositionName, PositionNameIsTaken;
  }

  lemma RenameGood(s: Sys, id: string, name: string, f: Faults)
    requires Good(s.mem)
    ensures Good(RenamePosition(s, id, name, f).0.mem)
  {
    hide Inv, Strong, RenameSection, Names.ValidatePositionName;
    var v := Names.ValidatePositionName(name);
    if v.Ok? {
      RenameKeeps(s.mem, id, v.value, SavePositions !in f);
      RenameStrong(s.mem, id, v.value, SavePositions !in f);
    }
  }

  lemma DeleteGood(s: Sys, id: string, f: Faults)
    requires Good(s.mem)
    ensures Good(DeletePosition(s, id, f).0.mem)
  {
    hide Inv, Strong, DeleteCommit;
    if id != SIMPLE {
      DeleteKeeps(s.mem, id, SavePositions !in f);
      DeleteStrong(s.mem, id, SavePositions !in f);
    }
  }

  lemma AssignGood(s: Sys, pid: string, cid: string, f: Faults)
    requires Good(s.mem)
    ensures Good(AssignCamera(s, pid, cid, f).0.mem)
  {
    if pid in s.mem.positions && Online(s.mem, cid) {
      assert cid != "" by { assert CamerasSourced(s.mem.base, s.mem.cameras); }
      var hits := Holders(s.mem.positions, {cid}) - {pid};
      FirstHitsAreAll(s.mem.positions, {cid}, {pid}, hits);
      AssignKeeps(s.mem, pid, cid, hits);
      AssignStrong(s.mem, pid, cid, hits);
    }
    hide Inv, Strong, AssignCommit, Settle, FirstHits;
  }

  lemma UnassignGood(s: Sys, pid: string, f: Faults)
    requires Good(s.mem)
    ensures Good(UnassignPosition(s, pid, f).0.mem)
  {
    hide Inv, Strong, UnassignCommit, Settle;
    UnassignKeeps(s.mem, pid);
    UnassignStrong(s.mem, pid);
  }

  lemma SetAudioGood(s: Sys, pid: string, f: Faults)
    requires Good(s.mem)
    ensures Good(SetAudioPosition(s, pid, f).0.mem)
  {
    hide Inv, Strong, Reflag;
    if pid in s.mem.positions {
      AudioKeeps(s.mem, pid, s.mem.audio);
      AudioStrong(s.mem, pid, s.mem.audio);
    }
  }

  lemma CreateSceneGood(s: Sys, name: string, ids: seq<string>, id: string, f: Faults)
    requires Good(s.mem) && id !in s.mem.scenes
    ensures Good(CreateScene(s, name, ids, id, f).0.mem)
  {
    hide Inv, Strong, CreateSceneSection, ValidateSceneIDs, Dedupe, CleanList, Names.ValidateSceneName;
    var v := Names.ValidateSceneName(name);
    if v.Ok? {
      ValidDedupedIsClean(s.mem, ids);
      CreateSceneKeeps(s.mem, id, v.value, Dedupe(ids), SaveScenes !in f);
      StoreSceneStrong(s.mem, id, v.value, Dedupe(ids), SaveScenes !in f);
    }
  }

  lemma SceneGood(s: Sys, id: string, name: string, ids: seq<string>, order: seq<string>, f: Faults)
    requires Good(s.mem)
    ensures Good(RenameScene(s, id, name, f).0.mem)
    ensures Good(UpdateScenePositions(s, id, ids, order, f).0.mem)
    ensures Good(DeleteScene(s, id, f).0.mem)
    ensures Good(SetPreviewCamera(s, id).0.mem) && Good(SetPreviewScene(s, id).0.mem)
  {
    hide Inv, Strong, RenameSceneSection, UpdateSceneSection;
    hide DeleteSceneSection, PreviewCameraSection, PreviewSceneSection;
    hide ValidateSceneIDs, Dedupe, CleanList, ApplyExclusive, Names.ValidateSceneName;
    var v := Names.ValidateSceneName(name);
    if v.Ok? {
      RenameSceneKeeps(s.mem, id, v.value, SaveScenes !in f);
      RenameOrDeleteSceneStrong(s.mem, id, v.value, SaveScenes !in f);
    }
    ValidDedupedIsClean(s.mem, ids);
    UpdateSceneKeeps(s.mem, id, Dedupe(ids), SaveScenes !in f);
    StoreSceneStrong(s.mem, id, "", Dedupe(ids), SaveScenes !in f);
    DeleteSceneKeeps(s.mem, id, SaveScenes !in f);
    RenameOrDeleteSceneStrong(s.mem, id, "", SaveScenes !in f);
    PreviewKeeps(s.mem, id);
    PreviewStrong(s.mem, id);
  }

  lemma EnsureHiddenGood(s: Sys, f: Faults)
    requires Good(s.mem)
    ensures Good(EnsureHidden(s, f).mem) && HiddenPresent(EnsureHidden(s, f).mem)
  {
    hide Inv, Strong, HiddenCommit;
    HiddenKeeps(s.mem);
    HiddenStrong(s.mem);
  }

  lemma FollowAudioGood(s: Sys, f: Faults)
    requires Good(s.mem) && SIMPLE in s.mem.positions
    ensures Good(FollowAudio(s, f).mem)
    ensures FollowAudio(s, f).mem.positions.Keys == s.mem.positions.Keys &&
      FollowAudio(s, f).mem.cameras == s.mem.cameras
  {
    hide Inv, Strong;
    AudioKeeps(s.mem, SIMPLE, s.mem.audio);
    AudioStrong(s.mem, SIMPLE, s.mem.audio);
  }

  lemma PlanIsPossible(m: Mem)
    requires Inv(m)
    ensures PlanCut(m).ShowCamera? ==> PlanCut(m).cid != "" && Online(m, PlanCut(m).cid)
    ensures PlanCut(m).ShowScene? ==> PlanCut(m).sid in m.scenes
  {
    hide Inv;
  }

  lemma CutGood(s: Sys, order: seq<string>, f: Faults)
    requires Good(s.mem)
    ensures Good(Cut(s, order, f).0.mem)
  {
    hide Inv, Strong, ApplyExclusive, FollowAudio, CutCameraCommit, CutSceneCommit, HiddenCommit, PlanCut;
    EnsureHiddenGood(s, f);
    var s1 := EnsureHidden(s, f);
    PlanIsPossible(s1.mem);
    match PlanCut(s1.mem)
    case ShowCamera(cid) =>
      var o := Update(s1.obs, SIMPLE, s1.mem.cameras[cid].sourceURL, f).0;
      var s2 := s1.(obs := ApplyExclusive(o, order, {SIMPLE}, f).0);
      FollowAudioGood(s2, f);
      CutKeeps(FollowAudio(s2, f).mem, cid);
      CutCameraStrong(FollowAudio(s2, f).mem, cid);
    case ShowScene(sid, _) =>
      CutKeeps(s1.mem, sid);
      CutSceneStrong(s1.mem, sid);
    case _ =>
  }

  lemma SyncGood(s: Sys, streams: Option<set<string>>, now: int, f: Faults)
    requires Good(s.mem) && (streams.Some? ==> "" !in streams.value)
    ensures Good(SyncOnce(s, streams, now, f).mem)
  {
    match streams
    case None => SyncKeeps(s.mem, {}, now, {});
    case Some(seen) =>
      var m := s.mem;
      var gone, expired := Gone(m, seen), Expired(m, seen, now);
      var hits := Holders(m.positions, gone);
      assert "" !in gone && "" !in expired by { assert CamerasSourced(m.base, m.cameras); }
      FirstHitsAreAll(m.positions, gone, {}, hits);
      SyncKeeps(m, seen, now, hits);
      SyncMarkStrong(m, seen, now, hits);
      var m' := SyncMark(m, seen, now, hits);
      PruneKeeps(m', expired);
      ExpiredAreFree(m, seen, now, hits);
      PruneStrong(m', expired);
      hide Inv, Strong, SyncMark, SyncPrune, Settle, Gone, Expired, Holders, FirstHits;
  }

  /** A camera that is pruned was offline before the sync, so no position holds it. */
  lemma ExpiredAreFree(m: Mem, seen: set<string>, now: int, hits: set<string>)
    requires Strong(m) && "" !in Expired(m, seen, now)
    ensures Holders(SyncMark(m, seen, now, hits).positions, Expired(m, seen, now)) == {}
  {}

  lemma ExecGood(s: Sys, c: Command, f: Faults)
    requires Good(s.mem) && Legal(s, c, f)
    ensures Good(Exec(s, c, f).mem)
  {
    hide Good, CreatePosition, RenamePosition, DeletePosition, AssignCamera, UnassignPosition, SetAudioPosition;
    hide CreateScene, RenameScene, UpdateScenePositions, DeleteScene, SetPreviewCamera;
    hide SetPreviewScene, EnsureHidden, Cut, SyncOnce;
    match c
    case DoCreatePosition(name, id) => CreateGood(s, name, id, f);
    case DoRenamePosition(id, name) => RenameGood(s, id, name, f);
    case DoDeletePosition(id) => DeleteGood(s, id, f);
    case DoAssignCamera(pid, cid) => AssignGood(s, pid, cid, f);
    case DoUnassignPosition(pid) => UnassignGood(s, pid, f);
    case DoSetAudioPosition(pid) => SetAudioGood(s, pid, f);
    case DoCreateScene(name, ids, id) => CreateSceneGood(s, name, ids, id, f);
    case DoRenameScene(id, name) => SceneGood(s, id, name, [], [], f);
    case DoUpdateScene(id, ids, order) => SceneGood(s, id, "", ids, order, f);
    case DoDeleteScene(id) => SceneGood(s, id, "", [], [], f);
    case DoPreviewCamera(cid) => SceneGood(s, cid, "", [], [], f);
    case DoPreviewScene(sid) => SceneGood(s, sid, "", [], [], f);
    case DoEnsureHidden => EnsureHiddenGood(s, f);
    case DoCut(order) => CutGood(s, order, f);
    case DoSync(streams, now) => SyncGood(s, streams, now, f);
  }

  /** After every sequential run, whatever failed along the way: everything that holds in every interleaving,
      and besides, the flag marks exactly the audio position, every occupied position holds a known online
      camera, and the live scene exists. */
  lemma {:induction false} EveryRunIsGood(s: Sys, trace: seq<(Command, Faults)>)
    requires Good(s.mem) && LegalRun(s, trace)
    ensures Good(Run(s, trace).mem)
  {
    if trace != [] {
      var init := trace[..|trace| - 1];
      EveryRunIsGood(s, init);
      ExecGood(Run(s, init), trace[|trace| - 1].0, trace[|trace| - 1].1);
    }
  }

  /** Run alone, a cut is refused for an unavailable source only when a camera is in preview: the positions of a
      scene never hold an offline camera. */
  lemma SceneCutNeverUnavailable(s: Sys, trace: seq<(Command, Faults)>, order: seq<string>, f: Faults)
    requires Good(s.mem) && LegalRun(s, trace)
    ensures Cut(Run(s, trace), order, f).1 == Err(SourceUnavailable) ==>
      Run(s, trace).mem.live.previewKind == KindCamera
  {
    EveryRunIsGood(s, trace);
    hide Run, Good;
    CutNeverUnavailable(Run(s, trace), order, f);
  }

  lemma CutNeverUnavailable(s: Sys, order: seq<string>, f: Faults)
    requires Good(s.mem)
    ensures Cut(s, order, f).1 == Err(SourceUnavailable) ==> s.mem.live.previewKind == KindCamera
  {
    EnsureHiddenGood(s, f);
    var s1 := EnsureHidden(s, f);
    assert s1.mem.live == s.mem.live;
    ScenePlanNeverUnavailable(s1.mem);
    hide EnsureHidden, Good, PlanCut, ApplyExclusive, FollowAudio, CutCameraCommit, CutSceneCommit;
  }

  lemma ScenePlanNeverUnavailable(m: Mem)
    requires Good(m)
    ensures PlanCut(m) == Refuse(SourceUnavailable) ==> m.live.previewKind == KindCamera
  {
    assert OnlineOccupied(m.positions, m.cameras);
    hide Inv, Strong, Existing;
  }
}
