/** The two models meet: every operation of the sequential model is, on the guarded state, an interleaving in which
    one thread takes its sections and nothing comes between them. */
module Alone {
  import opened Options
  import opened Model
  import Names
  import opened Sections
  import opened Invariants
  import opened SequentialSafety
  import opened I = Interleaved
  import Q = Sequential
  import O = Obs
  import Restart
  import Inputs

  type Trace = seq<(nat, Action)>

  ghost predicate OneThread(trace: Trace, t: nat) {
    forall i :: 0 <= i < |trace| ==> trace[i].0 == t
  }

  // ----- What single steps do to the guarded state and to their thread -----

  ghost predicate Steps(st: State, t: nat, a: Action, m: Mem, l: Local) {
    Enabled(st, t, a) && NextMem(st, t, a) == m && NextLocal(st, t, a) == l
  }

  lemma StepPlan(st: State, t: nat)
    requires At(st, t).Cutting?
    ensures PlanCut(st.mem).ShowCamera? ==> Steps(st, t, CutPlan, st.mem, CuttingCamera(PlanCut(st.mem).cid))
    ensures PlanCut(st.mem).ShowScene? ==> Steps(st, t, CutPlan, st.mem, CuttingScene(PlanCut(st.mem).sid))
    ensures PlanCut(st.mem).Refuse? || PlanCut(st.mem).AlreadyLive? ==> Steps(st, t, CutPlan, st.mem, Idle)
  {
    hide PlanCut;
  }

  lemma StepCutFinish(st: State, t: nat)
    ensures At(st, t).CuttingScene? ==> Steps(st, t, CutSceneFinish, CutSceneCommit(st.mem, At(st, t).sid), Idle)
    ensures At(st, t).CameraOnAir? ==> Steps(st, t, CutCameraFinish, CutCameraCommit(st.mem, At(st, t).cid), Idle)
  {
    hide CutSceneCommit, CutCameraCommit;
  }

  lemma StepAudio(st: State, t: nat)
    ensures At(st, t).CuttingCamera? ==> Steps(st, t, CutReadAudio, st.mem, CuttingAudio(At(st, t).cid, st.mem.audio))
    ensures At(st, t).CuttingAudio? ==> (
      && Steps(st, t, CutAudioFinish, AudioInternalCommit(st.mem, SIMPLE, At(st, t).prev), CameraOnAir(At(st, t).cid))
      && Steps(st, t, CutAudioFails, st.mem, CameraOnAir(At(st, t).cid)))
  {
    hide AudioInternalCommit;
  }

  lemma StepHide(st: State, t: nat)
    ensures At(st, t).Idle? ==> Steps(st, t, CutBegin, st.mem, if HiddenPresent(st.mem) then Cutting else Hiding)
    ensures At(st, t).Hiding? ==> Steps(st, t, HideFinish, HiddenCommit(st.mem), Cutting)
  {
    hide HiddenCommit;
  }

  lemma StepDelete(st: State, t: nat, pid: string, ok: bool)
    ensures At(st, t).Idle? && pid != SIMPLE && pid in st.mem.positions ==>
      Steps(st, t, DeleteCheck(pid), st.mem, Deleting(pid))
    ensures At(st, t) == Deleting(pid) ==> Steps(st, t, DeleteInput(ok), st.mem, DeletedInput(pid))
    ensures At(st, t) == DeletedInput(pid) ==> Steps(st, t, DeleteFinish(ok), DeleteCommit(st.mem, pid, ok).0, Idle)
  {
    hide DeleteCommit;
  }

  lemma StepSync(st: State, t: nat, seen: set<string>, now: int, hits: set<string>)
    requires At(st, t).Idle?
    ensures Steps(st, t, SyncFails, SyncFailed(st.mem), Idle)
    ensures "" !in seen && FirstHits(st.mem.positions, Gone(st.mem, seen), {}, hits) ==>
      Steps(st, t, Sync(seen, now, hits), SyncMark(st.mem, seen, now, hits),
            if Expired(st.mem, seen, now) == {} then Idle else Pruning(Expired(st.mem, seen, now)))
  {
    hide SyncFailed, FirstHits, SyncMark, Expired;
  }

  lemma StepPrune(st: State, t: nat)
    requires At(st, t).Pruning?
    ensures Steps(st, t, PruneFinish, SyncPrune(st.mem, At(st, t).ids), Idle)
  {
    hide SyncPrune;
  }

  lemma StepAssign(st: State, t: nat, pid: string, cid: string, hits: set<string>)
    ensures At(st, t).Idle? && pid != SIMPLE && pid in st.mem.positions && Online(st.mem, cid) &&
            st.mem.positions[pid].cameraID != cid ==>
      Steps(st, t, AssignCheck(pid, cid), st.mem, Assigning(pid, cid))
    ensures At(st, t) == Assigning(pid, cid) && FirstHits(st.mem.positions, {cid}, {pid}, hits) ==>
      Steps(st, t, AssignFinish(hits), AssignCommit(st.mem, pid, cid, hits).0, Idle)
  {
    hide AssignCommit, FirstHits;
  }

  lemma StepUnassign(st: State, t: nat, pid: string)
    ensures At(st, t).Idle? && pid != SIMPLE && pid in st.mem.positions && st.mem.positions[pid].cameraID != "" ==>
      Steps(st, t, UnassignCheck(pid), st.mem, Unassigning(pid))
    ensures At(st, t) == Unassigning(pid) ==> Steps(st, t, UnassignFinish, UnassignCommit(st.mem, pid).0, Idle)
  {
    hide UnassignCommit;
  }

  lemma StepSetAudio(st: State, t: nat, pid: string)
    ensures At(st, t).Idle? && pid != SIMPLE && pid in st.mem.positions && st.mem.positions[pid].cameraID != "" ==>
      Steps(st, t, AudioCheck(pid), st.mem, SettingAudio(pid, st.mem.audio))
    ensures At(st, t).SettingAudio? && At(st, t).pid == pid ==>
      Steps(st, t, AudioFinish, AudioCommit(st.mem, pid, At(st, t).prev).0, Idle)
  {
    hide AudioCommit;
  }

  lemma StepCreate(st: State, t: nat, name: string, id: string, ok: bool)
    ensures At(st, t).Idle? && id !in st.used && !PositionNameIsTaken(st.mem, name, SIMPLE) ==>
      Steps(st, t, CreateCheck(name, id), st.mem, Creating(name, id))
    ensures At(st, t) == Creating(name, id) ==> Steps(st, t, CreateInput(true), st.mem, CreatedInput(name, id))
    ensures At(st, t) == CreatedInput(name, id) && !PositionNameIsTaken(st.mem, name, SIMPLE) ==>
      Steps(st, t, CreateFinish(ok), CreateCommit(st.mem, id, name, ok).0, Idle)
  {
    hide CreateCommit, PositionNameIsTaken;
  }

  lemma StepRename(st: State, t: nat, id: string, name: string, saveOk: bool)
    requires At(st, t).Idle? && id != SIMPLE
    ensures Steps(st, t, Rename(id, name, saveOk), RenameSection(st.mem, id, name, saveOk).0, Idle)
  {
    hide RenameSection;
  }

  lemma StepPreview(st: State, t: nat, id: string)
    requires At(st, t).Idle?
    ensures Steps(st, t, PreviewCamera(id), PreviewCameraSection(st.mem, id).0, Idle)
    ensures Steps(st, t, PreviewScene(id), PreviewSceneSection(st.mem, id).0, Idle)
  {
    hide PreviewCameraSection, PreviewSceneSection;
  }

  lemma StepNewScene(st: State, t: nat, id: string, name: string, ids: seq<string>, saveOk: bool)
    requires At(st, t).Idle? && id !in st.mem.scenes
    ensures var m := CreateSceneSection(st.mem, id, name, Dedupe(ids), saveOk).0;
      Steps(st, t, NewScene(id, name, ids, saveOk), m, Idle)
  {
    hide CreateSceneSection, Dedupe;
  }

  lemma StepRenameScene(st: State, t: nat, id: string, name: string, saveOk: bool)
    requires At(st, t).Idle?
    ensures Steps(st, t, RenameScene(id, name, saveOk), RenameSceneSection(st.mem, id, name, saveOk).0, Idle)
  {
    hide RenameSceneSection;
  }

  lemma StepUpdateScene(st: State, t: nat, id: string, ids: seq<string>, saveOk: bool)
    requires At(st, t).Idle?
    ensures Steps(st, t, UpdateScene(id, ids, saveOk), UpdateSceneSection(st.mem, id, Dedupe(ids), saveOk).0, Idle)
  {
    hide UpdateSceneSection, Dedupe;
  }

  lemma StepDropScene(st: State, t: nat, id: string, saveOk: bool)
    requires At(st, t).Idle?
    ensures Steps(st, t, DropScene(id, saveOk), DeleteSceneSection(st.mem, id, saveOk).0, Idle)
  {
    hide DeleteSceneSection;
  }

  lemma StepAbort(st: State, t: nat)
    requires At(st, t).Cutting? || At(st, t).CuttingCamera? || At(st, t).CuttingScene?
    ensures Steps(st, t, Abort, st.mem, Idle)
  {}

  /** The id a step generates. */
  function Claimed(a: Action): set<string> { if a.CreateCheck? then {a.id} else {} }

  /** The thread alone comes to stand at l with the guarded state m, and has generated no ids but these. */
  ghost predicate Gets(st: State, t: nat, trace: Trace, m: Mem, l: Local, ids: set<string>) {
    OneThread(trace, t) && I.Run(st, trace).mem == m && At(I.Run(st, trace), t) == l &&
      I.Run(st, trace).used <= st.used + ids
  }

  /** One more step of the thread. */
  lemma Then(st: State, trace: Trace, t: nat, a: Action, m: Mem, l: Local, ids: set<string>) returns (longer: Trace)
    requires OneThread(trace, t) && I.Run(st, trace).used <= st.used + ids
    requires Steps(I.Run(st, trace), t, a, m, l) && Claimed(a) <= ids
    ensures Gets(st, t, longer, m, l, ids)
  {
    longer := trace + [(t, a)];
    hide Enabled, NextMem, NextLocal, NextInputs;
    assert longer[..|trace|] == trace;
  }

  // ----- Whole operations -----

  /** The state of a thread that is about to start an operation, with a generated id that was never used. */
  ghost predicate Ready(st: State, t: nat, s: Q.Sys, c: Q.Command) {
    && st.mem == s.mem && At(st, t).Idle? && Good(s.mem)
    && (c.DoCreatePosition? ==> c.id !in st.used)
  }

  /** The thread alone takes the guarded state to m and is idle again. */
  ghost predicate Reaches(st: State, t: nat, trace: Trace, m: Mem, ids: set<string>) {
    Gets(st, t, trace, m, Idle, ids)
  }

  lemma Nothing(st: State, t: nat, ids: set<string>)
    requires At(st, t).Idle?
    ensures Reaches(st, t, [], st.mem, ids) && I.Run(st, []) == st
  {}

  lemma AloneCreate(st: State, t: nat, s: Q.Sys, name: string, id: string, f: O.Faults) returns (trace: Trace)
    requires Ready(st, t, s, Q.DoCreatePosition(name, id))
    ensures Reaches(st, t, trace, Q.CreatePosition(s, name, id, f).0.mem, {id})
  {
    trace := [];
    Nothing(st, t, {id});
    hide CreateCommit, Names.ValidatePositionName, I.Run, Good, Steps, PositionNameIsTaken;
    var v := Names.ValidatePositionName(name);
    if v.Ok? && !PositionNameIsTaken(s.mem, v.value, SIMPLE) && O.Create(s.obs, id, f).1 {
      var saved := O.SavePositions !in f;
      StepCreate(st, t, v.value, id, true);
      trace := Then(st, trace, t, CreateCheck(v.value, id), s.mem, Creating(v.value, id), {id});
      StepCreate(I.Run(st, trace), t, v.value, id, true);
      trace := Then(st, trace, t, CreateInput(true), s.mem, CreatedInput(v.value, id), {id});
      StepCreate(I.Run(st, trace), t, v.value, id, saved);
      trace := Then(st, trace, t, CreateFinish(saved), CreateCommit(s.mem, id, v.value, saved).0, Idle, {id});
    }
  }

  lemma AloneDelete(st: State, t: nat, s: Q.Sys, id: string, f: O.Faults) returns (trace: Trace)
    requires Ready(st, t, s, Q.DoDeletePosition(id))
    ensures Reaches(st, t, trace, Q.DeletePosition(s, id, f).0.mem, {})
  {
    trace := [];
    Nothing(st, t, {});
    hide DeleteCommit, I.Run, Good, Q.DropInput, Steps;
    if id != SIMPLE && id in s.mem.positions {
      var removed, saved := O.RemoveInput(id) !in f, O.SavePositions !in f;
      StepDelete(st, t, id, true);
      trace := Then(st, trace, t, DeleteCheck(id), s.mem, Deleting(id), {});
      StepDelete(I.Run(st, trace), t, id, removed);
      trace := Then(st, trace, t, DeleteInput(removed), s.mem, DeletedInput(id), {});
      StepDelete(I.Run(st, trace), t, id, saved);
      trace := Then(st, trace, t, DeleteFinish(saved), DeleteCommit(s.mem, id, saved).0, Idle, {});
    }
  }

  lemma AloneAssign(st: State, t: nat, s: Q.Sys, pid: string, cid: string, f: O.Faults) returns (trace: Trace)
    requires Ready(st, t, s, Q.DoAssignCamera(pid, cid))
    ensures Reaches(st, t, trace, Q.AssignCamera(s, pid, cid, f).0.mem, {})
  {
    trace := [];
    Nothing(st, t, {});
    var hits := Holders(s.mem.positions, {cid}) - {pid};
    if Online(s.mem, cid) { FirstHitsAreAll(s.mem.positions, {cid}, {pid}, hits); }
    hide AssignCommit, I.Run, Good, Q.Settle, FirstHits, Holders, Steps;
    if pid != SIMPLE && pid in s.mem.positions && Online(s.mem, cid) && s.mem.positions[pid].cameraID != cid &&
       O.Update(s.obs, pid, s.mem.cameras[cid].sourceURL, f).1.Updated? {
      StepAssign(st, t, pid, cid, hits);
      trace := Then(st, trace, t, AssignCheck(pid, cid), s.mem, Assigning(pid, cid), {});
      StepAssign(I.Run(st, trace), t, pid, cid, hits);
      trace := Then(st, trace, t, AssignFinish(hits), AssignCommit(s.mem, pid, cid, hits).0, Idle, {});
    }
  }

  lemma AloneUnassign(st: State, t: nat, s: Q.Sys, pid: string, f: O.Faults) returns (trace: Trace)
    requires Ready(st, t, s, Q.DoUnassignPosition(pid))
    ensures Reaches(st, t, trace, Q.UnassignPosition(s, pid, f).0.mem, {})
  {
    trace := [];
    Nothing(st, t, {});
    hide UnassignCommit, I.Run, Good, Q.Settle, Steps;
    if pid != SIMPLE && pid in s.mem.positions && s.mem.positions[pid].cameraID != "" {
      StepUnassign(st, t, pid);
      trace := Then(st, trace, t, UnassignCheck(pid), s.mem, Unassigning(pid), {});
      StepUnassign(I.Run(st, trace), t, pid);
      trace := Then(st, trace, t, UnassignFinish, UnassignCommit(s.mem, pid).0, Idle, {});
    }
  }

  lemma AloneSetAudio(st: State, t: nat, s: Q.Sys, pid: string, f: O.Faults) returns (trace: Trace)
    requires Ready(st, t, s, Q.DoSetAudioPosition(pid))
    ensures Reaches(st, t, trace, Q.SetAudioPosition(s, pid, f).0.mem, {})
  {
    trace := [];
    Nothing(st, t, {});
    hide AudioCommit, I.Run, Good, O.Mute, Q.MutePrevious, Steps;
    if pid != SIMPLE && pid in s.mem.positions && s.mem.positions[pid].cameraID != "" &&
       O.Mute(Q.MutePrevious(s.obs, pid, s.mem.audio, f), pid, false, f).1 {
      StepSetAudio(st, t, pid);
      trace := Then(st, trace, t, AudioCheck(pid), s.mem, SettingAudio(pid, s.mem.audio), {});
      StepSetAudio(I.Run(st, trace), t, pid);
      trace := Then(st, trace, t, AudioFinish, AudioCommit(s.mem, pid, s.mem.audio).0, Idle, {});
    }
  }

  lemma AloneRename(st: State, t: nat, s: Q.Sys, id: string, name: string, f: O.Faults) returns (trace: Trace)
    requires Ready(st, t, s, Q.DoRenamePosition(id, name))
    ensures Reaches(st, t, trace, Q.RenamePosition(s, id, name, f).0.mem, {})
  {
    trace := [];
    Nothing(st, t, {});
    hide I.Run, Good, RenameSection, Names.ValidatePositionName, Steps;
    var v, saved := Names.ValidatePositionName(name), O.SavePositions !in f;
    if id != SIMPLE && v.Ok? {
      StepRename(st, t, id, v.value, saved);
      trace := Then(st, trace, t, Rename(id, v.value, saved), RenameSection(s.mem, id, v.value, saved).0, Idle, {});
    }
  }

  lemma AlonePreview(st: State, t: nat, s: Q.Sys, id: string, camera: bool) returns (trace: Trace)
    requires Ready(st, t, s, Q.DoPreviewCamera(id))
    ensures Reaches(st, t, trace, (if camera then Q.SetPreviewCamera(s, id) else Q.SetPreviewScene(s, id)).0.mem, {})
  {
    Nothing(st, t, {});
    hide I.Run, Good, PreviewCameraSection, PreviewSceneSection, Steps;
    StepPreview(st, t, id);
    if camera {
      trace := Then(st, [], t, PreviewCamera(id), PreviewCameraSection(s.mem, id).0, Idle, {});
    } else {
      trace := Then(st, [], t, PreviewScene(id), PreviewSceneSection(s.mem, id).0, Idle, {});
    }
  }

  lemma AloneNewScene(st: State, t: nat, s: Q.Sys, name: string, ids: seq<string>, id: string, f: O.Faults)
    returns (trace: Trace)
    requires Ready(st, t, s, Q.DoCreateScene(name, ids, id)) && id !in s.mem.scenes
    ensures Reaches(st, t, trace, Q.CreateScene(s, name, ids, id, f).0.mem, {})
  {
    trace := [];
    Nothing(st, t, {});
    hide I.Run, Good, CreateSceneSection, Names.ValidateSceneName, Dedupe, Steps;
    var v, saved := Names.ValidateSceneName(name), O.SaveScenes !in f;
    if v.Ok? {
      StepNewScene(st, t, id, v.value, ids, saved);
      var m := CreateSceneSection(s.mem, id, v.value, Dedupe(ids), saved).0;
      trace := Then(st, trace, t, NewScene(id, v.value, ids, saved), m, Idle, {});
    }
  }

  lemma AloneChangeScene(st: State, t: nat, s: Q.Sys, id: string, name: string, f: O.Faults) returns (trace: Trace)
    requires Ready(st, t, s, Q.DoRenameScene(id, name))
    ensures Reaches(st, t, trace, Q.RenameScene(s, id, name, f).0.mem, {})
  {
    trace := [];
    Nothing(st, t, {});
    hide I.Run, Good, RenameSceneSection, Names.ValidateSceneName, Steps;
    var v, saved := Names.ValidateSceneName(name), O.SaveScenes !in f;
    if v.Ok? {
      StepRenameScene(st, t, id, v.value, saved);
      var m := RenameSceneSection(s.mem, id, v.value, saved).0;
      trace := Then(st, trace, t, RenameScene(id, v.value, saved), m, Idle, {});
    }
  }

  lemma AloneDropScene(st: State, t: nat, s: Q.Sys, id: string, f: O.Faults) returns (trace: Trace)
    requires Ready(st, t, s, Q.DoDeleteScene(id))
    ensures Reaches(st, t, trace, Q.DeleteScene(s, id, f).0.mem, {})
  {
    Nothing(st, t, {});
    hide I.Run, Good, DeleteSceneSection, Steps;
    var saved := O.SaveScenes !in f;
    StepDropScene(st, t, id, saved);
    trace := Then(st, [], t, DropScene(id, saved), DeleteSceneSection(s.mem, id, saved).0, Idle, {});
  }

  lemma AloneUpdateScene(st: State, t: nat, s: Q.Sys, id: string, ids: seq<string>, order: seq<string>, f: O.Faults)
    returns (trace: Trace)
    requires Ready(st, t, s, Q.DoUpdateScene(id, ids, order))
    ensures Reaches(st, t, trace, Q.UpdateScenePositions(s, id, ids, order, f).0.mem, {})
  {
    Nothing(st, t, {});
    hide I.Run, Good, UpdateSceneSection, Q.ApplyExclusive, Dedupe, Steps;
    var saved := O.SaveScenes !in f;
    StepUpdateScene(st, t, id, ids, saved);
    var m := UpdateSceneSection(s.mem, id, Dedupe(ids), saved).0;
    trace := Then(st, [], t, UpdateScene(id, ids, saved), m, Idle, {});
  }

  /** The sections of ensureHiddenPosition, after which the thread may go on to cut. */
  lemma AloneHide(st: State, t: nat, s: Q.Sys, f: O.Faults) returns (trace: Trace)
    requires Ready(st, t, s, Q.DoEnsureHidden)
    ensures Gets(st, t, trace, Q.EnsureHidden(s, f).mem, Cutting, {})
  {
    trace := [];
    Nothing(st, t, {});
    hide I.Run, Good, HiddenCommit, Steps;
    StepHide(st, t);
    trace := Then(st, trace, t, CutBegin, s.mem, if HiddenPresent(s.mem) then Cutting else Hiding, {});
    if !HiddenPresent(s.mem) {
      StepHide(I.Run(st, trace), t);
      trace := Then(st, trace, t, HideFinish, HiddenCommit(s.mem), Cutting, {});
    }
  }

  /** A call fails, or there is nothing more to do. */
  lemma AloneAbort(st: State, begun: Trace, t: nat, m: Mem, l: Local) returns (trace: Trace)
    requires Gets(st, t, begun, m, l, {}) && (l.Cutting? || l.CuttingCamera? || l.CuttingScene?)
    ensures Reaches(st, t, trace, m, {})
  {
    StepAbort(I.Run(st, begun), t);
    hide Steps, I.Run;
    trace := Then(st, begun, t, Abort, m, Idle, {});
  }

  lemma AloneEnsure(st: State, t: nat, s: Q.Sys, f: O.Faults) returns (trace: Trace)
    requires Ready(st, t, s, Q.DoEnsureHidden)
    ensures Reaches(st, t, trace, Q.EnsureHidden(s, f).mem, {})
  {
    var begun := AloneHide(st, t, s, f);
    hide Gets, Good, Q.EnsureHidden;
    trace := AloneAbort(st, begun, t, Q.EnsureHidden(s, f).mem, Cutting);
  }

  lemma AloneCut(st: State, t: nat, s: Q.Sys, order: seq<string>, f: O.Faults) returns (trace: Trace)
    requires Ready(st, t, s, Q.DoCut(order))
    ensures Reaches(st, t, trace, Q.Cut(s, order, f).0.mem, {})
  {
    trace := AloneHide(st, t, s, f);
    var s1 := Q.EnsureHidden(s, f);
    assert PlanCut(s1.mem).ShowCamera? ==> PlanCut(s1.mem).cid in s1.mem.cameras;
    hide I.Run, Good, Q.EnsureHidden, PlanCut, Q.CutToScene, Q.CutToCamera, Steps;
    StepPlan(I.Run(st, trace), t);
    match PlanCut(s1.mem)
    case ShowCamera(cid) =>
      trace := Then(st, trace, t, CutPlan, s1.mem, CuttingCamera(cid), {});
      trace := AloneCutCamera(st, trace, t, s1, cid, order, f);
    case ShowScene(sid, enable) =>
      trace := Then(st, trace, t, CutPlan, s1.mem, CuttingScene(sid), {});
      trace := AloneCutScene(st, trace, t, s1, sid, enable, order, f);
    case _ => trace := Then(st, trace, t, CutPlan, s1.mem, Idle, {});
  }

  lemma AloneCutScene(st: State, begun: Trace, t: nat, s: Q.Sys, sid: string, enable: seq<string>, order: seq<string>,
                      f: O.Faults)
    returns (trace: Trace)
    requires Gets(st, t, begun, s.mem, CuttingScene(sid), {})
    ensures Reaches(st, t, trace, Q.CutToScene(s, sid, enable, order, f).0.mem, {})
  {
    hide I.Run, Q.ApplyExclusive, CutSceneCommit, Steps;
    if Q.ApplyExclusive(s.obs, order, Q.IdSet(enable), f).1 {
      StepCutFinish(I.Run(st, begun), t);
      trace := Then(st, begun, t, CutSceneFinish, CutSceneCommit(s.mem, sid), Idle, {});
    } else {
      trace := AloneAbort(st, begun, t, s.mem, CuttingScene(sid));
    }
  }

  /** The section that switches the audio, which a failing call leaves out. */
  lemma AloneFollowAudio(st: State, begun: Trace, t: nat, s: Q.Sys, cid: string, f: O.Faults) returns (trace: Trace)
    requires Gets(st, t, begun, s.mem, CuttingCamera(cid), {})
    ensures Gets(st, t, trace, Q.FollowAudio(s, f).mem, CameraOnAir(cid), {})
  {
    hide I.Run, AudioInternalCommit, O.Mute, Q.MutePrevious, Steps;
    StepAudio(I.Run(st, begun), t);
    trace := Then(st, begun, t, CutReadAudio, s.mem, CuttingAudio(cid, s.mem.audio), {});
    StepAudio(I.Run(st, trace), t);
    if O.Mute(Q.MutePrevious(s.obs, SIMPLE, s.mem.audio, f), SIMPLE, false, f).1 {
      var m := AudioInternalCommit(s.mem, SIMPLE, s.mem.audio);
      trace := Then(st, trace, t, CutAudioFinish, m, CameraOnAir(cid), {});
    } else {
      trace := Then(st, trace, t, CutAudioFails, s.mem, CameraOnAir(cid), {});
    }
  }

  lemma AloneCutCamera(st: State, begun: Trace, t: nat, s: Q.Sys, cid: string, order: seq<string>, f: O.Faults)
    returns (trace: Trace)
    requires Gets(st, t, begun, s.mem, CuttingCamera(cid), {}) && cid in s.mem.cameras
    ensures Reaches(st, t, trace, Q.CutToCamera(s, cid, order, f).0.mem, {})
  {
    hide I.Run, Q.ApplyExclusive, CutCameraCommit, Q.FollowAudio, Steps;
    var (o, r) := O.Update(s.obs, SIMPLE, s.mem.cameras[cid].sourceURL, f);
    var (o', ok) := Q.ApplyExclusive(o, order, {SIMPLE}, f);
    if r.Updated? && ok {
      var s1 := s.(obs := o');
      trace := AloneFollowAudio(st, begun, t, s1, cid, f);
      StepCutFinish(I.Run(st, trace), t);
      trace := Then(st, trace, t, CutCameraFinish, CutCameraCommit(Q.FollowAudio(s1, f).mem, cid), Idle, {});
    } else {
      trace := AloneAbort(st, begun, t, s.mem, CuttingCamera(cid));
    }
  }

  lemma AloneSync(st: State, t: nat, s: Q.Sys, streams: Option<set<string>>, now: int, f: O.Faults)
    returns (trace: Trace)
    requires Ready(st, t, s, Q.DoSync(streams, now)) && (streams.Some? ==> "" !in streams.value)
    ensures Reaches(st, t, trace, Q.SyncOnce(s, streams, now, f).mem, {})
  {
    trace := [];
    Nothing(st, t, {});
    assert OneCameraOnePosition(s.mem.positions) && "" !in s.mem.cameras;
    hide I.Run, Good, Q.Settle, SyncMark, SyncPrune, OneCameraOnePosition, Steps, Expired;
    match streams
    case None =>
      StepSync(st, t, {}, now, {});
      trace := Then(st, trace, t, SyncFails, SyncFailed(s.mem), Idle, {});
    case Some(seen) =>
      var hits, expired := Holders(s.mem.positions, Gone(s.mem, seen)), Expired(s.mem, seen, now);
      FirstHitsAreAll(s.mem.positions, Gone(s.mem, seen), {}, hits);
      assert hits - {} == hits;
      hide FirstHits, Gone, Holders;
      var marked := SyncMark(s.mem, seen, now, hits);
      StepSync(st, t, seen, now, hits);
      trace := Then(st, trace, t, Sync(seen, now, hits), marked, if expired == {} then Idle else Pruning(expired), {});
      if expired != {} {
        StepPrune(I.Run(st, trace), t);
        trace := Then(st, trace, t, PruneFinish, SyncPrune(marked, expired), Idle, {});
      } else {
        PruneNothing(marked);
      }
  }

  lemma PruneNothing(m: Mem)
    ensures SyncPrune(m, {}) == m
  {
    assert m.cameras - {} == m.cameras && m.offlineSince - {} == m.offlineSince;
  }

  // ----- Every operation, and every run -----

  /** The id a command brings with it. */
  function Brings(c: Q.Command): set<string> { if c.DoCreatePosition? then {c.id} else {} }

  lemma PositionCommandIsAlone(st: State, t: nat, s: Q.Sys, c: Q.Command, f: O.Faults) returns (trace: Trace)
    requires Ready(st, t, s, c) && Q.Legal(s, c, f)
    requires c.DoCreatePosition? || c.DoRenamePosition? || c.DoDeletePosition? || c.DoAssignCamera? ||
             c.DoUnassignPosition? || c.DoSetAudioPosition?
    ensures Reaches(st, t, trace, Q.Exec(s, c, f).mem, Brings(c))
  {
    hide Reaches, Good, Q.CreatePosition, Q.RenamePosition;
    hide Q.DeletePosition, Q.AssignCamera, Q.UnassignPosition, Q.SetAudioPosition;
    match c
    case DoCreatePosition(name, id) => trace := AloneCreate(st, t, s, name, id, f);
    case DoRenamePosition(id, name) => trace := AloneRename(st, t, s, id, name, f);
    case DoDeletePosition(id) => trace := AloneDelete(st, t, s, id, f);
    case DoAssignCamera(pid, cid) => trace := AloneAssign(st, t, s, pid, cid, f);
    case DoUnassignPosition(pid) => trace := AloneUnassign(st, t, s, pid, f);
    case DoSetAudioPosition(pid) => trace := AloneSetAudio(st, t, s, pid, f);
  }

  lemma SceneCommandIsAlone(st: State, t: nat, s: Q.Sys, c: Q.Command, f: O.Faults) returns (trace: Trace)
    requires Ready(st, t, s, c) && Q.Legal(s, c, f)
    requires c.DoCreateScene? || c.DoRenameScene? || c.DoUpdateScene? || c.DoDeleteScene? || c.DoPreviewCamera? ||
      c.DoPreviewScene?
    ensures Reaches(st, t, trace, Q.Exec(s, c, f).mem, {})
  {
    hide Reaches, Good, Q.CreateScene, Q.RenameScene;
    hide Q.UpdateScenePositions, Q.DeleteScene, Q.SetPreviewCamera, Q.SetPreviewScene;
    match c
    case DoCreateScene(name, ids, id) => trace := AloneNewScene(st, t, s, name, ids, id, f);
    case DoRenameScene(id, name) => trace := AloneChangeScene(st, t, s, id, name, f);
    case DoUpdateScene(id, ids, order) => trace := AloneUpdateScene(st, t, s, id, ids, order, f);
    case DoDeleteScene(id) => trace := AloneDropScene(st, t, s, id, f);
    case DoPreviewCamera(cid) => trace := AlonePreview(st, t, s, cid, true);
    case DoPreviewScene(sid) => trace := AlonePreview(st, t, s, sid, false);
  }

  /** Every operation of the sequential model is an interleaving of one thread, which is idle again at its end. */
  lemma SequentialIsAlone(st: State, t: nat, s: Q.Sys, c: Q.Command, f: O.Faults) returns (trace: Trace)
    requires Ready(st, t, s, c) && Q.Legal(s, c, f)
    ensures Reaches(st, t, trace, Q.Exec(s, c, f).mem, Brings(c))
  {
    hide Reaches, Good, Q.EnsureHidden, Q.Cut, Q.SyncOnce;
    match c
    case DoEnsureHidden => trace := AloneEnsure(st, t, s, f);
    case DoCut(order) => trace := AloneCut(st, t, s, order, f);
    case DoSync(streams, now) => trace := AloneSync(st, t, s, streams, now, f);
    case _ =>
      hide Q.Exec;
      if c.DoCreatePosition? || c.DoRenamePosition? || c.DoDeletePosition? || c.DoAssignCamera? ||
         c.DoUnassignPosition? || c.DoSetAudioPosition? {
        trace := PositionCommandIsAlone(st, t, s, c, f);
      } else {
        trace := SceneCommandIsAlone(st, t, s, c, f);
      }
  }

  /** The ids the commands of a run bring with them. */
  function Made(run: seq<(Q.Command, O.Faults)>): set<string> {
    if run == [] then {} else Made(run[..|run| - 1]) + Brings(run[|run| - 1].0)
  }

  /** Generated ids are never generated again. */
  ghost predicate FreshRun(run: seq<(Q.Command, O.Faults)>, used: set<string>) {
    run == [] ||
    (var init := run[..|run| - 1];
     FreshRun(init, used) && Brings(run[|run| - 1].0) !! used + Made(init))
  }

  /** Every legal sequential run, with any failures, is an interleaving in which one thread takes the sections of one
      operation after the other and nothing comes between them. */
  lemma {:induction false} SequentialRunIsAlone(st: State, t: nat, s: Q.Sys, run: seq<(Q.Command, O.Faults)>)
    returns (trace: Trace)
    requires st.mem == s.mem && At(st, t).Idle? && Good(s.mem) && Q.LegalRun(s, run) && FreshRun(run, st.used)
    ensures Reaches(st, t, trace, Q.Run(s, run).mem, Made(run))
  {
    trace := [];
    Nothing(st, t, {});
    if run != [] {
      var init := run[..|run| - 1];
      var (c, f) := run[|run| - 1];
      var first := SequentialRunIsAlone(st, t, s, init);
      var mid := I.Run(st, first);
      EveryRunIsGood(s, init);
      hide I.Run, Good, Q.Legal, Q.Exec;
      assert c.DoCreatePosition? ==> c.id in Brings(c);
      var last := SequentialIsAlone(mid, t, Q.Run(s, init), c, f);
      trace := first + last;
      RunConcat(st, first, last);
    }
  }

  // ----- Where interleavings start -----

  /** The state New builds, with no operation under way, is safe: every interleaving may start there. */
  lemma StartIsSafe(base: string, positions: seq<PositionDef>, scenes: seq<SceneDef>, inputs: set<string>,
                    used: set<string>)
    requires Restart.Loadable(positions, scenes)
    requires Q.LoadPositions(positions).Keys + inputs + {"", SIMPLE} <= used
    ensures Safe(State(Q.Start(base, positions, scenes), inputs, map[], used))
    ensures Strong(Q.Start(base, positions, scenes))
  {
    Restart.StartIsGood(base, positions, scenes);
    hide Inv, Strong;
  }

  /** And with an input for no other id, every input is accounted for. */
  lemma StartIsAccountedFor(m: Mem, inputs: set<string>, used: set<string>, id: string)
    requires inputs <= m.positions.Keys + {SIMPLE}
    ensures Inputs.AccountedFor(State(m, inputs, map[], used), id)
  {}
}
