/** When an assignment and a cut are accepted, and the missing input that refuses every cut. All in the sequential
    model. */
module Acceptance {
  import opened Options
  import opened Model
  import Names
  import opened Obs
  import opened Sections
  import opened Invariants
  import opened Sequential
  import opened SequentialSafety
  import opened OnAir
  import I = Interleaved

  // ----- Exactly when -----

  /** With OBS answering, an assignment is accepted exactly for a public position and a known online camera that it
      holds already or for which it has an input. */
  lemma AssignAcceptedExactly(s: Sys, pid: string, cid: string, f: Faults)
    requires ObsWorks(f)
    ensures AssignCamera(s, pid, cid, f).1.Ok? <==>
      && pid in s.mem.positions && pid != SIMPLE && Online(s.mem, cid)
      && (s.mem.positions[pid].cameraID == cid || pid in s.obs.inputs)
  {
    hide Settle;
  }

  predicate IsAlreadyLive(live: LiveState) {
    live.liveKind == live.previewKind && live.liveID == live.previewID
  }

  /** What has to be in preview for a cut to go through. */
  predicate Cuttable(m: Mem) {
    && m.live.previewID != "" && m.live.previewKind != KindNone
    && (m.live.previewKind == KindCamera && !IsAlreadyLive(m.live) ==> Online(m, m.live.previewID))
  }

  /** Every position has its input; a hidden one that was not ensured yet is about to get it. */
  predicate EveryInput(s: Sys) {
    forall id :: id in s.mem.positions && (id == SIMPLE ==> s.mem.hiddenReady) ==> id in s.obs.inputs
  }

  lemma EnsuredInputs(s: Sys, f: Faults)
    requires ObsWorks(f)
    ensures var s1 := EnsureHidden(s, f); EveryInput(s) <==> InputsExist(s1.mem.positions, s1.obs)
  {
    var s1 := EnsureHidden(s, f);
    if HiddenPresent(s.mem) {
      assert s1 == s;
    } else {
      assert SIMPLE in s1.obs.inputs && forall id :: id != SIMPLE ==> (id in s1.obs.inputs <==> id in s.obs.inputs);
    }
  }

  lemma ShowCameraAccepted(s: Sys, cid: string, order: seq<string>, f: Faults)
    requires ObsWorks(f) && Enumerates(order, s.mem.positions.Keys)
    requires SIMPLE in s.mem.positions && cid in s.mem.cameras
    ensures CutToCamera(s, cid, order, f).1.Ok? <==> InputsExist(s.mem.positions, s.obs)
    ensures SIMPLE !in s.obs.inputs ==> CutToCamera(s, cid, order, f).1 == Err(PositionOBSInputMissing)
    ensures SIMPLE in s.obs.inputs && !InputsExist(s.mem.positions, s.obs) ==>
      CutToCamera(s, cid, order, f).1 == Err(OBSUnreachable)
  {
    ApplyExclusiveEffect(Update(s.obs, SIMPLE, s.mem.cameras[cid].sourceURL, f).0, order, {SIMPLE}, f);
    hide ApplyExclusive, FollowAudio, CutCameraCommit;
  }

  lemma ShowSceneAccepted(s: Sys, sid: string, enable: seq<string>, order: seq<string>, f: Faults)
    requires ObsWorks(f) && Enumerates(order, s.mem.positions.Keys)
    ensures CutToScene(s, sid, enable, order, f).1.Ok? <==> InputsExist(s.mem.positions, s.obs)
    ensures !InputsExist(s.mem.positions, s.obs) ==> CutToScene(s, sid, enable, order, f).1 == Err(OBSUnreachable)
  {
    ApplyExclusiveEffect(s.obs, order, IdSet(enable), f);
    hide ApplyExclusive;
  }

  lemma PlanWhenGood(m: Mem)
    requires Good(m)
    ensures PlanCut(m).Refuse? <==> !Cuttable(m)
    ensures PlanCut(m).AlreadyLive? <==> Cuttable(m) && IsAlreadyLive(m.live)
    ensures PlanCut(m).ShowCamera? <==> Cuttable(m) && !IsAlreadyLive(m.live) && m.live.previewKind == KindCamera
    ensures PlanCut(m).ShowCamera? ==> PlanCut(m).cid in m.cameras
  {
    hide Existing;
    assert OnlineOccupied(m.positions, m.cameras) && PreviewSceneExists(m.live, m.scenes);
  }

  /** The answer of a cut while OBS answers, in every good state: a fault of the preview comes first, and what is live
      already needs no input; otherwise every position has to have its input, on air or not. */
  lemma CutAcceptedExactly(s: Sys, order: seq<string>, f: Faults)
    requires Good(s.mem) && ObsWorks(f) && Enumerates(order, EnsureHidden(s, f).mem.positions.Keys)
    ensures Cut(s, order, f).1.Ok? <==> Cuttable(s.mem) && (IsAlreadyLive(s.mem.live) || EveryInput(s))
    ensures Cuttable(s.mem) && Cut(s, order, f).1.Err? ==>
      Cut(s, order, f).1.error ==
        if s.mem.live.previewKind == KindCamera && HiddenPresent(s.mem) && SIMPLE !in s.obs.inputs
        then PositionOBSInputMissing else OBSUnreachable
  {
    var s1 := EnsureHidden(s, f);
    EnsureHiddenGood(s, f);
    EnsuredInputs(s, f);
    HiddenHasInput(s, f);
    assert s1.mem.live == s.mem.live && s1.mem.cameras == s.mem.cameras;
    assert Cuttable(s1.mem) <==> Cuttable(s.mem);
    PlanWhenGood(s1.mem);
    hide Good, InputsExist, EveryInput, EnsureHidden, PlanCut, CutToCamera, CutToScene, ObsWorks, Enumerates, Cuttable;
    match PlanCut(s1.mem)
    case ShowCamera(cid) => ShowCameraAccepted(s1, cid, order, f);
    case ShowScene(sid, enable) => ShowSceneAccepted(s1, sid, enable, order, f);
    case _ =>
  }

  lemma HiddenHasInput(s: Sys, f: Faults)
    requires ObsWorks(f)
    ensures SIMPLE in EnsureHidden(s, f).obs.inputs <==> !HiddenPresent(s.mem) || SIMPLE in s.obs.inputs
  {}

  // ----- A position without an input -----

  /** The position is registered for good as far as OBS goes, and has no input. */
  predicate Blocked(s: Sys, id: string) {
    id in s.mem.positions && id !in s.obs.inputs && (id == SIMPLE ==> s.mem.hiddenReady)
  }

  /** No cut is accepted but of what is live already, whatever else OBS does. */
  lemma BlockedRefusesCuts(s: Sys, id: string, order: seq<string>, f: Faults)
    requires Blocked(s, id) && Enumerates(order, EnsureHidden(s, f).mem.positions.Keys)
    requires !IsAlreadyLive(s.mem.live)
    ensures Cut(s, order, f).1.Err?
  {
    var s1 := EnsureHidden(s, f);
    assert id in s1.mem.positions && id !in s1.obs.inputs && s1.mem.live == s.mem.live;
    assert id in order;
    hide EnsureHidden, Enumerates, PlanCut;
    PlanIsNotLive(s1.mem);
    match PlanCut(s1.mem)
    case ShowCamera(cid) =>
      ApplyExclusiveEffect(Update(s1.obs, SIMPLE, s1.mem.cameras[cid].sourceURL, f).0, order, {SIMPLE}, f);
      hide ApplyExclusive, FollowAudio;
    case ShowScene(_, enable) =>
      ApplyExclusiveEffect(s1.obs, order, IdSet(enable), f);
      hide ApplyExclusive;
    case _ =>
  }

  lemma PlanIsNotLive(m: Mem)
    ensures PlanCut(m).AlreadyLive? ==> IsAlreadyLive(m.live)
    ensures PlanCut(m).ShowCamera? ==> PlanCut(m).cid in m.cameras
  {
    hide Existing;
  }

  /** No command but a create of this very id, or the first ensuring of the hidden position, makes the input; none but
      a delete of it takes the position away. */
  ghost predicate NoNewInput(s: Sys, s': Sys, id: string) {
    && (id in s.mem.positions ==> id in s'.mem.positions)
    && (id !in s.obs.inputs ==> id !in s'.obs.inputs)
    && (s.mem.hiddenReady ==> s'.mem.hiddenReady)
  }

  lemma CreateMakesNoOther(s: Sys, name: string, own: string, id: string, f: Faults)
    requires id != own
    ensures NoNewInput(s, CreatePosition(s, name, own, f).0, id)
  {
    var v := Names.ValidatePositionName(name);
    if v.Ok? { I.CreateKeys(s.mem, own, v.value, SavePositions !in f); }
    hide CreateCommit, Names.ValidatePositionName, PositionNameIsTaken;
  }

  lemma RenameMakesNone(s: Sys, own: string, name: string, id: string, f: Faults)
    ensures NoNewInput(s, RenamePosition(s, own, name, f).0, id)
  {
    var v := Names.ValidatePositionName(name);
    if v.Ok? { I.RenameKeys(s.mem, own, v.value, SavePositions !in f); }
    hide RenameSection, Names.ValidatePositionName;
  }

  lemma DeleteMakesNone(s: Sys, own: string, id: string, f: Faults)
    requires own != id || own == SIMPLE
    ensures NoNewInput(s, DeletePosition(s, own, f).0, id)
  {
    I.DeleteKeys(s.mem, own, SavePositions !in f);
    hide DeleteCommit;
  }

  lemma AssignMakesNone(s: Sys, pid: string, cid: string, id: string, f: Faults)
    ensures NoNewInput(s, AssignCamera(s, pid, cid, f).0, id) && NoNewInput(s, UnassignPosition(s, pid, f).0, id)
  {
    I.AssignedKeys(s.mem, pid, cid, Holders(s.mem.positions, {cid}) - {pid});
    hide AssignCommit, UnassignCommit, Holders;
  }

  lemma AudioMakesNone(s: Sys, pid: string, id: string, f: Faults)
    ensures NoNewInput(s, SetAudioPosition(s, pid, f).0, id) && NoNewInput(s, FollowAudio(s, f), id)
  {
    I.AudioKeys(s.mem, pid, s.mem.audio);
    I.AudioKeys(s.mem, SIMPLE, s.mem.audio);
    hide AudioCommit, AudioInternalCommit;
  }

  lemma SceneMakesNone(s: Sys, c: Command, id: string, f: Faults)
    requires c.DoCreateScene? || c.DoRenameScene? || c.DoDeleteScene?
    ensures NoNewInput(s, Exec(s, c, f), id)
  {
    hide CreateSceneSection, RenameSceneSection, DeleteSceneSection, Names.ValidateSceneName, Dedupe;
    match c
    case DoCreateScene(name, ids, own) =>
      var v := Names.ValidateSceneName(name);
      if v.Ok? { I.NewSceneKeys(s.mem, own, v.value, Dedupe(ids), SaveScenes !in f); }
    case DoRenameScene(own, name) =>
      var v := Names.ValidateSceneName(name);
      if v.Ok? { I.ChangedSceneKeys(s.mem, own, v.value, [], SaveScenes !in f); }
    case DoDeleteScene(own) => I.DropAndPreviewKeys(s.mem, own, SaveScenes !in f);
  }

  lemma UpdateOrPreviewMakesNone(s: Sys, c: Command, id: string, f: Faults)
    requires c.DoUpdateScene? || c.DoPreviewCamera? || c.DoPreviewScene?
    ensures NoNewInput(s, Exec(s, c, f), id)
  {
    hide UpdateSceneSection, PreviewCameraSection, PreviewSceneSection, Dedupe;
    match c
    case DoUpdateScene(own, ids, order) =>
      I.ChangedSceneKeys(s.mem, own, "", Dedupe(ids), SaveScenes !in f);
      ApplyExclusiveEffect(s.obs, order, IdSet(Dedupe(ids)), f);
      hide ApplyExclusive;
    case DoPreviewCamera(own) => I.DropAndPreviewKeys(s.mem, own, true);
    case DoPreviewScene(own) => I.DropAndPreviewKeys(s.mem, own, true);
  }

  lemma CutToCameraMakesNone(s: Sys, cid: string, order: seq<string>, id: string, f: Faults)
    requires cid in s.mem.cameras
    ensures NoNewInput(s, CutToCamera(s, cid, order, f).0, id)
  {
    var o := Update(s.obs, SIMPLE, s.mem.cameras[cid].sourceURL, f).0;
    ApplyExclusiveEffect(o, order, {SIMPLE}, f);
    var s1 := s.(obs := ApplyExclusive(o, order, {SIMPLE}, f).0);
    AudioMakesNone(s1, SIMPLE, id, f);
    I.CutAndSyncKeys(FollowAudio(s1, f).mem, cid, {}, 0, {});
    hide ApplyExclusive, FollowAudio, CutCameraCommit;
  }

  lemma CutMakesNone(s: Sys, order: seq<string>, id: string, f: Faults)
    requires id == SIMPLE ==> HiddenPresent(s.mem)
    ensures NoNewInput(s, Cut(s, order, f).0, id) && NoNewInput(s, EnsureHidden(s, f), id)
  {
    var s1 := EnsureHidden(s, f);
    assert NoNewInput(s, s1, id);
    PlanIsNotLive(s1.mem);
    hide EnsureHidden, PlanCut, CutToCamera;
    match PlanCut(s1.mem)
    case ShowCamera(cid) => CutToCameraMakesNone(s1, cid, order, id, f);
    case ShowScene(sid, enable) =>
      ApplyExclusiveEffect(s1.obs, order, IdSet(enable), f);
      I.CutAndSyncKeys(s1.mem, sid, {}, 0, {});
      hide ApplyExclusive, CutSceneCommit;
    case _ =>
  }

  lemma SyncMakesNone(s: Sys, streams: Option<set<string>>, now: int, id: string, f: Faults)
    ensures NoNewInput(s, SyncOnce(s, streams, now, f), id)
  {
    match streams
    case None =>
    case Some(seen) =>
      var hits, expired := Holders(s.mem.positions, Gone(s.mem, seen)), Expired(s.mem, seen, now);
      I.CutAndSyncKeys(s.mem, "", seen, now, hits);
      I.CutAndSyncKeys(SyncMark(s.mem, seen, now, hits), "", expired, now, hits);
      hide SyncMark, SyncPrune, Gone, Holders, Expired;
  }

  lemma CommandKeepsBlocked(s: Sys, c: Command, f: Faults, id: string)
    requires Blocked(s, id) && Legal(s, c, f) && (id == SIMPLE || c != DoDeletePosition(id))
    ensures Blocked(Exec(s, c, f), id)
  {
    assert id == SIMPLE ==> HiddenPresent(s.mem);
    hide CreatePosition, RenamePosition, DeletePosition, AssignCamera, UnassignPosition, SetAudioPosition;
    hide EnsureHidden, Cut, SyncOnce;
    match c
    case DoCreatePosition(name, own) => CreateMakesNoOther(s, name, own, id, f);
    case DoRenamePosition(own, name) => RenameMakesNone(s, own, name, id, f);
    case DoDeletePosition(own) => DeleteMakesNone(s, own, id, f);
    case DoAssignCamera(pid, cid) => AssignMakesNone(s, pid, cid, id, f);
    case DoUnassignPosition(pid) => AssignMakesNone(s, pid, "", id, f);
    case DoSetAudioPosition(pid) => AudioMakesNone(s, pid, id, f);
    case DoEnsureHidden => CutMakesNone(s, [], id, f);
    case DoCut(order) => CutMakesNone(s, order, id, f);
    case DoSync(streams, now) => SyncMakesNone(s, streams, now, id, f);
    case _ =>
      hide Exec;
      if c.DoCreateScene? || c.DoRenameScene? || c.DoDeleteScene? {
        SceneMakesNone(s, c, id, f);
      } else {
        UpdateOrPreviewMakesNone(s, c, id, f);
      }
  }

  /** A position without an input keeps refusing cuts for as long as it is not deleted, whatever fails or works in the
      meantime; the hidden one, which cannot be deleted, until the program is started again. */
  lemma {:induction false} BlockedStays(s: Sys, trace: seq<(Command, Faults)>, id: string)
    requires Blocked(s, id) && LegalRun(s, trace)
    requires id == SIMPLE || forall i :: 0 <= i < |trace| ==> trace[i].0 != DoDeletePosition(id)
    ensures Blocked(Run(s, trace), id)
  {
    if trace != [] {
      var init := trace[..|trace| - 1];
      BlockedStays(s, init, id);
      hide Exec, Legal, Blocked;
      CommandKeepsBlocked(Run(s, init), trace[|trace| - 1].0, trace[|trace| - 1].1, id);
    }
  }

  lemma {:induction false} StuckRefusesEveryCut(s: Sys, trace: seq<(Command, Faults)>, order: seq<string>, f: Faults)
    requires Blocked(s, SIMPLE) && LegalRun(s, trace)
    requires Enumerates(order, EnsureHidden(Run(s, trace), f).mem.positions.Keys)
    ensures var s' := Run(s, trace); IsAlreadyLive(s'.mem.live) || Cut(s', order, f).1.Err?
  {
    BlockedStays(s, trace, SIMPLE);
    hide Run, Blocked, Enumerates, EnsureHidden, Cut;
    if !IsAlreadyLive(Run(s, trace).mem.live) { BlockedRefusesCuts(Run(s, trace), SIMPLE, order, f); }
  }

  /** One failed call at startup is enough: from the state New builds, with no hidden input in OBS yet, the creation
      that fails is tolerated, the hidden position counts as ready, and after every further run, OBS healthy or not,
      every cut of something that is not live already is refused. */
  lemma FailedEnsureBlocksCuts(base: string, positions: seq<PositionDef>, scenes: seq<SceneDef>, o: Tables,
                               trace: seq<(Command, Faults)>, order: seq<string>, f: Faults)
    requires SIMPLE !in o.inputs
    requires LegalRun(EnsureHidden(Sys(Start(base, positions, scenes), o), {CreateInput(SIMPLE)}), trace)
    requires var s' := Run(EnsureHidden(Sys(Start(base, positions, scenes), o), {CreateInput(SIMPLE)}), trace);
      Enumerates(order, EnsureHidden(s', f).mem.positions.Keys)
    ensures var s := EnsureHidden(Sys(Start(base, positions, scenes), o), {CreateInput(SIMPLE)});
      var s' := Run(s, trace);
      Blocked(s, SIMPLE) && Blocked(s', SIMPLE) && (IsAlreadyLive(s'.mem.live) || Cut(s', order, f).1.Err?)
  {
    var s := EnsureHidden(Sys(Start(base, positions, scenes), o), {CreateInput(SIMPLE)});
    assert Blocked(s, SIMPLE);
    hide EnsureHidden, Run, LegalRun, Start, Enumerates, Cut, Blocked;
    BlockedStays(s, trace, SIMPLE);
    StuckRefusesEveryCut(s, trace, order, f);
  }

  /** Ensuring the hidden position blocks cuts exactly when its creation fails with no input there. */
  lemma EnsureBlocksExactly(s: Sys, f: Faults)
    requires !HiddenPresent(s.mem)
    ensures Blocked(EnsureHidden(s, f), SIMPLE) <==> CreateInput(SIMPLE) in f && SIMPLE !in s.obs.inputs
  {}
}
