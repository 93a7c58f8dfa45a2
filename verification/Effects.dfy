/** What the answer of an operation tells its caller: what an accepted one has done, that a refused one has done
    nothing, and what a failed save leaves behind. All in the sequential model. */
module Effects {
  import opened Options
  import opened Model
  import Names
  import opened Obs
  import opened Sections
  import opened Invariants
  import opened Sequential
  import opened SequentialSafety
  import opened OnAir
  import Restart

  // ----- Refused commands -----

  function Fault<T>(r: Outcome<T>): Option<Error> {
    if r.Err? then Some(r.error) else None
  }

  /** The error a command answers with, if any. */
  ghost function Refusal(s: Sys, c: Command, f: Faults): Option<Error> {
    match c
    case DoCreatePosition(name, id) => Fault(CreatePosition(s, name, id, f).1)
    case DoRenamePosition(id, name) => Fault(RenamePosition(s, id, name, f).1)
    case DoDeletePosition(id) => Fault(DeletePosition(s, id, f).1)
    case DoAssignCamera(pid, cid) => Fault(AssignCamera(s, pid, cid, f).1)
    case DoUnassignPosition(pid) => Fault(UnassignPosition(s, pid, f).1)
    case DoSetAudioPosition(pid) => Fault(SetAudioPosition(s, pid, f).1)
    case DoCreateScene(name, ids, id) => Fault(CreateScene(s, name, ids, id, f).1)
    case DoRenameScene(id, name) => Fault(RenameScene(s, id, name, f).1)
    case DoUpdateScene(id, ids, order) => Fault(UpdateScenePositions(s, id, ids, order, f).1)
    case DoDeleteScene(id) => Fault(DeleteScene(s, id, f).1)
    case DoPreviewCamera(cid) => Fault(SetPreviewCamera(s, cid).1)
    case DoPreviewScene(sid) => Fault(SetPreviewScene(s, sid).1)
    case DoCut(order) => Fault(Cut(s, order, f).1)
    case DoEnsureHidden => None
    case DoSync(_, _) => None
  }

  /** The guarded state without the two files. */
  ghost function Bare(m: Mem): Mem {
    m.(positionStore := Store([], false), sceneStore := Store([], false))
  }

  /** The inputs of known positions show what they showed, from where they showed it. */
  ghost predicate SameOnAir(s: Sys, s': Sys) {
    forall id :: id in s.mem.positions ==>
      && (IsEnabled(s'.obs, id) <==> IsEnabled(s.obs, id))
      && (id in s'.obs.inputs <==> id in s.obs.inputs)
      && (id in s.obs.inputs ==> s'.obs.inputs[id] == s.obs.inputs[id])
  }

  predicate Creates(c: Command) { c.DoCreatePosition? || c.DoCreateScene? }

  /** An audio selection that mutes the source before it and then cannot unmute its own. */
  predicate SilencesPrevious(s: Sys, c: Command, f: Faults) {
    && c.DoSetAudioPosition? && c.pid != SIMPLE && c.pid in s.mem.positions && s.mem.positions[c.pid].cameraID != ""
    && s.mem.audio != "" && s.mem.audio != c.pid
    && SetMuted(c.pid) in f && SetMuted(s.mem.audio) !in f
    && !(s.mem.audio in s.obs.muted && s.obs.muted[s.mem.audio])
  }

  /** A create that makes its input and then cannot save its definition. */
  predicate LeavesInput(s: Sys, c: Command, f: Faults) {
    && c.DoCreatePosition? && Names.ValidatePositionName(c.name).Ok?
    && !PositionNameIsTaken(s.mem, Names.ValidatePositionName(c.name).value, SIMPLE)
    && CreateInput(c.id) !in f && c.id !in s.obs.inputs && SavePositions in f
  }

  /** Memory is as it was, known inputs show what they showed, and OBS is as it was in all three tables exactly when
      the command is neither of the two above. */
  ghost predicate Undone(s: Sys, c: Command, f: Faults) {
    && Bare(Exec(s, c, f).mem) == Bare(s.mem) && SameOnAir(s, Exec(s, c, f))
    && (Exec(s, c, f).obs == s.obs <==> !SilencesPrevious(s, c, f) && !LeavesInput(s, c, f))
  }

  lemma RefusedPositionCommand(s: Sys, c: Command, f: Faults)
    requires Legal(s, c, f) && Refusal(s, c, f).Some?
    requires c.DoCreatePosition? ||
      ((c.DoRenamePosition? || c.DoDeletePosition?) && Refusal(s, c, f) != Some(SaveFailed))
    ensures Undone(s, c, f)
  {
    hide PositionDefs, PositionNameIsTaken, Names.ValidatePositionName, DropInput;
    if c.DoCreatePosition? {
      var v := Names.ValidatePositionName(c.name);
      assert v.Ok? ==> s.mem.positions[c.id := Position(v.value, "", false)] - {c.id} == s.mem.positions;
    }
  }

  lemma RefusedAssignmentCommand(s: Sys, c: Command, f: Faults)
    requires c.DoAssignCamera? || c.DoUnassignPosition? || c.DoSetAudioPosition?
    requires Refusal(s, c, f).Some?
    ensures Undone(s, c, f)
  {
    hide Settle, Reflag, Holders;
  }

  lemma RefusedSceneCommand(s: Sys, c: Command, f: Faults)
    requires Legal(s, c, f) && Refusal(s, c, f).Some?
    requires c.DoCreateScene? || ((c.DoRenameScene? || c.DoDeleteScene?) && Refusal(s, c, f) != Some(SaveFailed))
    ensures Undone(s, c, f)
  {
    hide SceneDefs, Names.ValidateSceneName, Dedupe, ValidateSceneIDs;
    if c.DoCreateScene? {
      var v := Names.ValidateSceneName(c.name);
      assert v.Ok? ==> s.mem.scenes[c.id := Scene(v.value, Dedupe(c.ids))] - {c.id} == s.mem.scenes;
    }
  }

  lemma RefusedUpdateOrPreview(s: Sys, c: Command, f: Faults)
    requires c.DoUpdateScene? || c.DoPreviewCamera? || c.DoPreviewScene?
    requires Refusal(s, c, f).Some? && Refusal(s, c, f) != Some(SaveFailed)
    ensures Undone(s, c, f)
  {
    hide SceneDefs, Dedupe, ValidateSceneIDs, ApplyExclusive;
  }

  /** A refused command, unless it is a cut or the failed save of a rename, delete or update: memory is as it was, and
      so is OBS exactly when the command neither silenced the previous audio source nor left an input behind. */
  lemma RefusedChangesNothing(s: Sys, c: Command, f: Faults)
    requires Legal(s, c, f) && Refusal(s, c, f).Some? && !c.DoCut?
    requires Refusal(s, c, f) == Some(SaveFailed) ==> Creates(c)
    ensures Undone(s, c, f)
  {
    if c.DoCreatePosition? || c.DoRenamePosition? || c.DoDeletePosition? {
      RefusedPositionCommand(s, c, f);
    } else if c.DoAssignCamera? || c.DoUnassignPosition? || c.DoSetAudioPosition? {
      RefusedAssignmentCommand(s, c, f);
    } else if c.DoCreateScene? || c.DoRenameScene? || c.DoDeleteScene? {
      RefusedSceneCommand(s, c, f);
    } else {
      RefusedUpdateOrPreview(s, c, f);
    }
    hide Undone, Refusal;
  }

  /** The first failing family: the answer is that OBS is unreachable, memory still names the previous source, and that
      source is muted. Where OBS agreed before, nothing is heard any more and it agrees no longer. */
  lemma RefusedAudioSilences(s: Sys, pid: string, f: Faults)
    requires SilencesPrevious(s, DoSetAudioPosition(pid), f)
    ensures var (s', r) := SetAudioPosition(s, pid, f);
      && r == Err(OBSUnreachable) && s'.mem == s.mem
      && s.mem.audio in s'.obs.muted && s'.obs.muted[s.mem.audio]
      && (Agrees(s) ==> !Agrees(s') && forall id :: !IsUnmuted(s'.obs, id))
  {
    hide Good;
    var s' := SetAudioPosition(s, pid, f).0;
    assert Agrees(s) ==> IsUnmuted(s.obs, s.mem.audio) && !IsUnmuted(s'.obs, s.mem.audio);
    assert forall id :: IsUnmuted(s'.obs, id) ==> IsUnmuted(s.obs, id) && id != s.mem.audio;
  }

  /** The second: the create is taken back in memory and is not in the file, but its input stays. */
  lemma RefusedCreateLeavesInput(s: Sys, name: string, id: string, f: Faults)
    requires LeavesInput(s, DoCreatePosition(name, id), f) && id !in s.mem.positions
    ensures var (s', r) := CreatePosition(s, name, id, f);
      && r == Err(SaveFailed) && id !in s'.mem.positions && s'.mem.positionStore.saved == s.mem.positionStore.saved
      && id !in s.obs.inputs && id in s'.obs.inputs
  {
    hide PositionDefs, PositionNameIsTaken, Names.ValidatePositionName;
  }

  /** A refused cut only registers the hidden position. */
  lemma RefusedCutKeepsState(s: Sys, order: seq<string>, f: Faults)
    requires Cut(s, order, f).1.Err?
    ensures Cut(s, order, f).0.mem == EnsureHidden(s, f).mem && Cut(s, order, f).0.mem.live == s.mem.live
  {
    hide ApplyExclusive, Existing, FollowAudio, Update;
  }

  // ----- Failed saves -----

  const SAVES: Faults := {SavePositions, SaveScenes}

  ghost predicate ActsUnsaved(s: Sys, c: Command, f: Faults) {
    var m, accepted := Exec(s, c, f).mem, Exec(s, c, f - SAVES).mem;
    && Refusal(s, c, f - SAVES) == None
    && Bare(m) == Bare(accepted)
    && m.positionStore.saved == s.mem.positionStore.saved && m.sceneStore.saved == s.mem.sceneStore.saved
  }

  lemma FailedPositionSave(s: Sys, c: Command, f: Faults)
    requires c.DoRenamePosition? || c.DoDeletePosition?
    requires Refusal(s, c, f) == Some(SaveFailed)
    ensures ActsUnsaved(s, c, f)
  {
    assert SavePositions !in f - SAVES && SaveScenes !in f - SAVES;
    hide PositionDefs, PositionNameIsTaken, Names.ValidatePositionName, DropInput;
  }

  lemma FailedSceneSave(s: Sys, c: Command, f: Faults)
    requires c.DoRenameScene? || c.DoDeleteScene?
    requires Refusal(s, c, f) == Some(SaveFailed)
    ensures ActsUnsaved(s, c, f)
  {
    assert SavePositions !in f - SAVES && SaveScenes !in f - SAVES;
    hide SceneDefs, SceneNameIsTaken, Names.ValidateSceneName;
  }

  predicate FirstBad(m: Mem, ids: seq<string>, k: int) {
    && 0 <= k < |ids| && (ids[k] == SIMPLE || ids[k] !in m.positions)
    && (forall i :: 0 <= i < k ==> ids[i] != SIMPLE && ids[i] in m.positions)
  }

  function Complaint(id: string): Error { if id == SIMPLE then ReservedPosition else PositionNotFound }

  /** A list is accepted exactly when it names known public positions only; otherwise its first bad id decides. */
  lemma {:induction false} ValidationErrors(m: Mem, ids: seq<string>)
    ensures ValidateSceneIDs(m, ids).Ok? <==> forall i :: 0 <= i < |ids| ==> ids[i] != SIMPLE && ids[i] in m.positions
    ensures ValidateSceneIDs(m, ids).Err? ==>
      exists k :: FirstBad(m, ids, k) && ValidateSceneIDs(m, ids).error == Complaint(ids[k])
  {
    if ids != [] && ids[0] != SIMPLE && ids[0] in m.positions {
      var rest := ids[1..];
      ValidationErrors(m, rest);
      assert forall i :: 1 <= i < |ids| ==> ids[i] == rest[i - 1];
      if ValidateSceneIDs(m, ids).Err? {
        var k :| FirstBad(m, rest, k) && ValidateSceneIDs(m, rest).error == Complaint(rest[k]);
        assert FirstBad(m, ids, k + 1);
      }
    } else if ids != [] {
      assert FirstBad(m, ids, 0);
    }
  }

  lemma FailedUpdateSave(s: Sys, c: Command, f: Faults)
    requires c.DoUpdateScene? && Refusal(s, c, f) == Some(SaveFailed)
    ensures ActsUnsaved(s, c, f)
  {
    assert SavePositions !in f - SAVES && SaveScenes !in f - SAVES;
    ValidationErrors(s.mem, Dedupe(c.ids));
    hide SceneDefs, Dedupe, ValidateSceneIDs, ApplyExclusive;
  }

  /** Only commands that write a file answer with a failed save. */
  lemma OnlySavesFail(s: Sys, c: Command, f: Faults)
    requires Refusal(s, c, f) == Some(SaveFailed)
    ensures Creates(c) || c.DoRenamePosition? || c.DoDeletePosition? || c.DoRenameScene? || c.DoDeleteScene? ||
      c.DoUpdateScene?
  {
    hide CreatePosition, RenamePosition, DeletePosition, CreateScene, RenameScene, UpdateScenePositions, DeleteScene;
    hide ApplyExclusive, Settle, FollowAudio, Existing, Dedupe;
  }

  /** A rename, delete or update that answers with a failed save has acted all the same: memory is what the
      accepted command would have made it, and only the file is left behind. */
  lemma FailedSaveActs(s: Sys, c: Command, f: Faults)
    requires Refusal(s, c, f) == Some(SaveFailed) && !Creates(c)
    ensures ActsUnsaved(s, c, f)
  {
    OnlySavesFail(s, c, f);
    if c.DoRenamePosition? || c.DoDeletePosition? {
      FailedPositionSave(s, c, f);
    } else if c.DoUpdateScene? {
      FailedUpdateSave(s, c, f);
    } else {
      FailedSceneSave(s, c, f);
    }
    hide Refusal, ActsUnsaved;
  }

  /** A rename that is accepted leaves the file agreeing with memory exactly when it had something to write or the
      file agreed before. */
  lemma AcceptedRenameIsSaved(s: Sys, id: string, name: string, f: Faults)
    requires RenamePosition(s, id, name, f).1.Ok?
    ensures var m := RenamePosition(s, id, name, f).0.mem;
      m.positionStore.saved == PositionDefs(m.positions) <==>
      (s.mem.positions[id].name != Names.TrimSpace(name) || s.mem.positionStore.saved == PositionDefs(s.mem.positions))
  {
    hide PositionDefs, PositionNameIsTaken;
  }

  lemma AcceptedSceneRenameIsSaved(s: Sys, id: string, name: string, f: Faults)
    requires RenameScene(s, id, name, f).1.Ok?
    ensures var m := RenameScene(s, id, name, f).0.mem;
      m.sceneStore.saved == SceneDefs(m.scenes) <==>
      (s.mem.scenes[id].name != Names.TrimSpace(name) || s.mem.sceneStore.saved == SceneDefs(s.mem.scenes))
  {
    hide SceneDefs, SceneNameIsTaken;
  }

  /** The failing family: a rename whose save failed is accepted when it is tried again, and is still not in the
      file. */
  lemma RetriedRenameIsNotSaved(s: Sys, id: string, name: string, f: Faults, g: Faults)
    requires s.mem.positionStore.saved == PositionDefs(s.mem.positions)
    requires RenamePosition(s, id, name, f).1 == Err(SaveFailed)
    ensures var (s', r) := RenamePosition(RenamePosition(s, id, name, f).0, id, name, g);
      r.Ok? && s'.mem.positionStore.saved == s.mem.positionStore.saved != PositionDefs(s'.mem.positions)
  {
    var m := RenamePosition(s, id, name, f).0.mem;
    Restart.PositionsRoundTrip(s.mem.positions);
    Restart.PositionsRoundTrip(m.positions);
    hide PositionDefs, LoadPositions, PositionNameIsTaken;
    var named, renamed := LoadPositions(PositionDefs(s.mem.positions)), LoadPositions(PositionDefs(m.positions));
    assert named[id].name != renamed[id].name;
  }

  /** A delete whose save failed comes back with the next start, and cannot be tried again before. */
  lemma FailedDeleteComesBack(s: Sys, id: string, f: Faults, g: Faults, base: string)
    requires s.mem.positionStore.saved == PositionDefs(s.mem.positions)
    requires DeletePosition(s, id, f).1 == Err(SaveFailed)
    ensures var s' := DeletePosition(s, id, f).0;
      && DeletePosition(s', id, g) == (s', Err(PositionNotFound))
      && id in Start(base, s'.mem.positionStore.saved, s'.mem.sceneStore.saved).positions
  {
    Restart.PositionsRoundTrip(s.mem.positions);
    hide PositionDefs, LoadPositions, LoadScenes, DropInput;
  }

  // ----- Accepted commands -----

  lemma AssignCommitEffect(m: Mem, pid: string, cid: string)
    requires pid in m.positions && m.positions[pid].cameraID != cid
    ensures var (m', r) := AssignCommit(m, pid, cid, Holders(m.positions, {cid}) - {pid});
      && m'.positions.Keys == m.positions.Keys
      && r == Ok(m.positions[pid].(cameraID := cid)) && m'.positions[pid] == r.value
      && (forall id :: id in m.positions && id != pid ==>
            m'.positions[id] ==
              if m.positions[id].cameraID == cid then m.positions[id].(cameraID := "", isAudio := false)
              else m.positions[id])
  {
  }

  /** An accepted assignment: the position holds the camera, whoever held it holds nothing and is silent, every
      other position is as it was. */
  lemma AssignEffect(s: Sys, pid: string, cid: string, f: Faults)
    requires Good(s.mem) && AssignCamera(s, pid, cid, f).1.Ok?
    ensures var (s', r) := AssignCamera(s, pid, cid, f);
      var ps, ps' := s.mem.positions, s'.mem.positions;
      && ps'.Keys == ps.Keys && pid in ps && r == Ok(ps[pid].(cameraID := cid)) && ps'[pid] == r.value
      && (forall id :: id in ps && id != pid ==>
            ps'[id] == if ps[id].cameraID == cid then ps[id].(cameraID := "", isAudio := false) else ps[id])
  {
    assert Online(s.mem, cid);
    assert OneCameraOnePosition(s.mem.positions) && "" !in s.mem.cameras;
    if s.mem.positions[pid].cameraID != cid { AssignCommitEffect(s.mem, pid, cid); }
    hide Good, Settle, Update, AssignCommit, Holders;
  }

  /** Assigning again changes nothing, whatever fails. */
  lemma AssignIsIdempotent(s: Sys, pid: string, cid: string, f: Faults, g: Faults)
    requires AssignCamera(s, pid, cid, f).1.Ok?
    ensures var (s', r) := AssignCamera(s, pid, cid, f); AssignCamera(s', pid, cid, g) == (s', r)
  {
    hide Settle, Holders;
  }

  /** An accepted change of the audio source: exactly that position is flagged and nothing else about any position
      changes; its input is heard, and the one before it is not when its call went through. */
  lemma SetAudioEffect(s: Sys, pid: string, f: Faults)
    requires Good(s.mem) && SetAudioPosition(s, pid, f).1.Ok?
    ensures var (s', r) := SetAudioPosition(s, pid, f);
      var ps, ps' := s.mem.positions, s'.mem.positions;
      && s'.mem.audio == pid && ps'.Keys == ps.Keys && pid in ps
      && (forall id :: id in ps ==> ps'[id] == ps[id].(isAudio := id == pid))
      && IsUnmuted(s'.obs, pid)
      && (s.mem.audio !in {"", pid} && SetMuted(s.mem.audio) !in f ==> !IsUnmuted(s'.obs, s.mem.audio))
  {
    assert AudioExact(s.mem.positions, s.mem.audio);
    hide Good;
  }

  /** An accepted unassignment empties and silences that position alone, and changes nothing when repeated. */
  lemma UnassignEffect(s: Sys, pid: string, f: Faults, g: Faults)
    requires Good(s.mem) && UnassignPosition(s, pid, f).1.Ok?
    ensures var (s', r) := UnassignPosition(s, pid, f);
      && pid in s.mem.positions
      && s'.mem.positions == s.mem.positions[pid := r.value]
      && r.value == (if s.mem.positions[pid].cameraID == "" then s.mem.positions[pid]
                     else s.mem.positions[pid].(cameraID := "", isAudio := false))
      && (s.mem.positions[pid].cameraID != "" ==> s'.mem.audio == if s.mem.audio == pid then "" else s.mem.audio)
      && UnassignPosition(s', pid, g) == (s', r)
  {
    assert AudioExact(s.mem.positions, s.mem.audio);
    hide Good, Settle;
  }

  /** What OBS has of an input once its removal was tried. */
  function AfterRemoval(o: Tables, id: string, removed: bool): Tables {
    if removed then o.(inputs := o.inputs - {id}, enabled := o.enabled - {id}, muted := o.muted - {id})
    else o.(inputs := o.inputs[id := ""], enabled := o.enabled[id := false])
  }

  /** Memory after a create and a delete of the same id. */
  lemma CreateThenDeleteMem(m: Mem, id: string, name: string, saved: bool)
    requires id !in m.positions && m.audio != id && CreateCommit(m, id, name, true).1.Ok?
    ensures var (m', r) := DeleteCommit(CreateCommit(m, id, name, true).0, id, saved);
      && r == (if saved then Ok(()) else Err(SaveFailed)) && Bare(m') == Bare(m)
      && (saved ==> m'.positionStore == Store(PositionDefs(m.positions), true))
  {
    hide PositionDefs, PositionNameIsTaken;
    assert m.positions[id := Position(name, "", false)] - {id} == m.positions;
  }

  lemma CreateThenDrop(o: Tables, id: string, p: Position, f: Faults, g: Faults)
    requires Create(o, id, f).1 && p.cameraID == "" && !p.isAudio
    ensures DropInput(Create(o, id, f).0, id, p, g) == AfterRemoval(o, id, RemoveInput(id) !in g)
    ensures RemoveInput(id) !in g && id !in o.enabled && id !in o.muted ==> DropInput(Create(o, id, f).0, id, p, g) == o
  {
    assert o.inputs[id := ""] - {id} == o.inputs - {id} == o.inputs;
    assert o.enabled[id := false] - {id} == o.enabled - {id};
    assert id !in o.enabled ==> o.enabled - {id} == o.enabled;
    assert id !in o.muted ==> o.muted - {id} == o.muted;
  }

  /** Deleting a position that was just created, whatever fails on the way: memory is what it was before the create, the
      answer is that of the save, and OBS is what it was without the input, unless its removal failed. */
  lemma CreateThenDelete(s: Sys, name: string, id: string, f: Faults, g: Faults)
    requires Good(s.mem) && Legal(s, DoCreatePosition(name, id), f) && CreatePosition(s, name, id, f).1.Ok?
    ensures var (s', r) := DeletePosition(CreatePosition(s, name, id, f).0, id, g);
      && r == (if SavePositions in g then Err(SaveFailed) else Ok(()))
      && Bare(s'.mem) == Bare(s.mem)
      && (r.Ok? ==> s'.mem.positionStore == Store(PositionDefs(s.mem.positions), true))
      && s'.obs == AfterRemoval(s.obs, id, RemoveInput(id) !in g)
      && (RemoveInput(id) !in g && id !in s.obs.enabled && id !in s.obs.muted ==> s'.obs == s.obs)
  {
    assert s.mem.audio != id by { assert AudioExact(s.mem.positions, s.mem.audio); }
    var v := Names.ValidatePositionName(name);
    hide Names.ValidatePositionName, Good, PositionNameIsTaken, PositionDefs;
    assert SavePositions !in f;
    CreateThenDeleteMem(s.mem, id, v.value, SavePositions !in g);
    CreateThenDrop(s.obs, id, Position(v.value, "", false), f, g);
    assert CreateCommit(s.mem, id, v.value, true).0.positions[id] == Position(v.value, "", false);
    hide DropInput, DeleteCommit, CreateCommit, Create, AfterRemoval, Bare;
  }

  lemma CutToCameraKeeps(s: Sys, cid: string, order: seq<string>, f: Faults)
    requires cid in s.mem.cameras && CutToCamera(s, cid, order, f).1.Ok?
    ensures var (s', r) := CutToCamera(s, cid, order, f);
      && s'.mem.live == s.mem.live.(liveKind := KindCamera, liveID := cid) && r == Ok(s'.mem.live)
      && s'.mem.positions.Keys == s.mem.positions.Keys && s'.mem.hiddenReady == s.mem.hiddenReady
      && (forall id :: id in s.mem.positions ==>
            s'.mem.positions[id].name == s.mem.positions[id].name &&
            s'.mem.positions[id].cameraID ==
              if SIMPLE !in s.mem.positions then s.mem.positions[id].cameraID
              else if id == SIMPLE then cid
              else if s.mem.positions[id].cameraID == cid then "" else s.mem.positions[id].cameraID)
  {
    var o := ApplyExclusive(Update(s.obs, SIMPLE, s.mem.cameras[cid].sourceURL, f).0, order, {SIMPLE}, f).0;
    FollowAudioEffect(s.(obs := o), f);
    assert forall id :: id in s.mem.positions ==>
      FollowAudio(s.(obs := o), f).mem.positions[id].name == s.mem.positions[id].name;
    hide ApplyExclusive, FollowAudio, Update;
  }

  /** An accepted cut puts the preview live and keeps it in preview; cutting again changes nothing, whatever fails. */
  lemma CutIsIdempotent(s: Sys, order: seq<string>, f: Faults, again: seq<string>, g: Faults)
    requires Cut(s, order, f).1.Ok?
    ensures var (s', r) := Cut(s, order, f);
      && s'.mem.live == s.mem.live.(liveKind := s.mem.live.previewKind, liveID := s.mem.live.previewID)
      && r == Ok(s'.mem.live)
      && Cut(s', again, g) == (s', r)
  {
    var s1 := EnsureHidden(s, f);
    assert HiddenPresent(s1.mem) && s1.mem.live == s.mem.live;
    hide ApplyExclusive, CutToCamera, Existing, EnsureHidden, HoldsOffline;
    assert PlanCut(s1.mem).ShowCamera? ==> PlanCut(s1.mem).cid in s1.mem.cameras;
    if PlanCut(s1.mem).ShowCamera? { CutToCameraKeeps(s1, PlanCut(s1.mem).cid, order, f); }
    var s' := Cut(s, order, f).0;
    assert HiddenPresent(s'.mem);
    AlreadyHidden(s', g);
  }

  lemma AlreadyHidden(s: Sys, f: Faults)
    requires HiddenPresent(s.mem)
    ensures EnsureHidden(s, f) == s
  {
  }

  /** A camera that a cut puts on air is taken from whoever held it: the hidden position holds it, and every other
      position keeps its own. */
  lemma CutTakesCamera(s: Sys, order: seq<string>, f: Faults)
    requires Cut(s, order, f).1.Ok? && s.mem.live.previewKind == KindCamera
    requires !(s.mem.live.liveKind == KindCamera && s.mem.live.liveID == s.mem.live.previewID)
    ensures var ps, ps' := EnsureHidden(s, f).mem.positions, Cut(s, order, f).0.mem.positions;
      && ps'.Keys == ps.Keys && SIMPLE in ps && ps'[SIMPLE].cameraID == s.mem.live.previewID
      && (forall id :: id in ps && id != SIMPLE ==>
            ps'[id].name == ps[id].name &&
            ps'[id].cameraID == if ps[id].cameraID == s.mem.live.previewID then "" else ps[id].cameraID)
  {
    var s1 := EnsureHidden(s, f);
    assert HiddenPresent(s1.mem) && s1.mem.live == s.mem.live;
    hide CutToCamera, EnsureHidden;
    CutToCameraKeeps(s1, s.mem.live.previewID, order, f);
  }
}
