/** The interleaved model: any number of threads, each running one operation at a time; every section that
    holds the mutex is one atomic step, and what a section hands to the next one lives in the thread's local.

    OBS calls sit between sections. They do not touch the guarded state, so only their effect on which section
    comes next is kept, together with which inputs exist. CutOverlap adds which of them are enabled. */
module Interleaved {
  import opened Model
  import opened Sections
  import opened Invariants

  datatype Local =
    | Idle
    | Creating(name: string, id: string)          // the name was free under the read lock
    | CreatedInput(name: string, id: string)      // the OBS input exists
    | LostName(id: string)                        // another create won; the input is to be removed
    | Deleting(pid: string)
    | DeletedInput(pid: string)
    | Assigning(pid: string, cid: string)
    | Unassigning(pid: string)
    | SettingAudio(pid: string, prev: string)
    | Hiding                                      // between the two sections of ensureHiddenPosition
    | Cutting                                     // the hidden position is in place
    | CuttingCamera(cid: string)
    | CuttingAudio(cid: string, prev: string)
    | CameraOnAir(cid: string)                    // OBS shows it; the state does not say so yet
    | CuttingScene(sid: string)
    | Pruning(ids: set<string>)

  /** `used` holds every position id there ever was: generated ids are never generated again. */
  datatype State = State(mem: Mem, inputs: set<string>, locals: map<nat, Local>, used: set<string>)

  function At(st: State, t: nat): Local { if t in st.locals then st.locals[t] else Idle }

  datatype Action =
    | CreateCheck(name: string, id: string)
    | CreateInput(ok: bool)
    | CreateFinish(saveOk: bool)
    | CreateCleanup(ok: bool)
    | Rename(pid: string, name: string, saveOk: bool)
    | DeleteCheck(pid: string)
    | DeleteInput(ok: bool)
    | DeleteFinish(saveOk: bool)
    | AssignCheck(pid: string, cid: string)
    | AssignFinish(hits: set<string>)
    | UnassignCheck(pid: string)
    | UnassignFinish
    | AudioCheck(pid: string)
    | AudioFinish
    | NewScene(id: string, name: string, ids: seq<string>, saveOk: bool)
    | RenameScene(id: string, name: string, saveOk: bool)
    | UpdateScene(id: string, ids: seq<string>, saveOk: bool)
    | DropScene(id: string, saveOk: bool)
    | PreviewCamera(cid: string)
    | PreviewScene(sid: string)
    | CutBegin
    | HideFinish
    | CutPlan
    | CutReadAudio
    | CutAudioFinish
    | CutAudioFails
    | CutCameraFinish
    | CutSceneFinish
    | Sync(seen: set<string>, now: int, hits: set<string>)
    | SyncFails
    | PruneFinish
    | Abort                                       // a failed OBS call ends the operation; or, at startup, the
                                                  // hidden position is ensured and no cut follows

  predicate Claims(l: Local, id: string) {
    (l.Creating? || l.CreatedInput? || l.LostName?) && l.id == id
  }

  ghost predicate Enabled(st: State, t: nat, a: Action) {
    var l := At(st, t);
    var m := st.mem;
    match a
    case CreateCheck(name, id) => l.Idle? && id !in st.used && !PositionNameIsTaken(m, name, SIMPLE)
    case CreateInput(_) => l.Creating?
    case CreateFinish(_) => l.CreatedInput?
    case CreateCleanup(_) => l.LostName?
    case Rename(pid, _, _) => l.Idle? && pid != SIMPLE
    case DeleteCheck(pid) => l.Idle? && pid != SIMPLE && pid in m.positions
    case DeleteInput(_) => l.Deleting?
    case DeleteFinish(_) => l.DeletedInput?
    case AssignCheck(pid, cid) =>
      l.Idle? && pid != SIMPLE && pid in m.positions && Online(m, cid) && m.positions[pid].cameraID != cid
    case AssignFinish(hits) => l.Assigning? && FirstHits(m.positions, {l.cid}, {l.pid}, hits)
    case UnassignCheck(pid) => l.Idle? && pid != SIMPLE && pid in m.positions && m.positions[pid].cameraID != ""
    case UnassignFinish => l.Unassigning?
    case AudioCheck(pid) => l.Idle? && pid != SIMPLE && pid in m.positions && m.positions[pid].cameraID != ""
    case AudioFinish => l.SettingAudio?
    case NewScene(id, _, _, _) => l.Idle? && id !in m.scenes
    case RenameScene(_, _, _) => l.Idle?
    case UpdateScene(_, _, _) => l.Idle?
    case DropScene(_, _) => l.Idle?
    case PreviewCamera(_) => l.Idle?
    case PreviewScene(_) => l.Idle?
    case CutBegin => l.Idle?
    case HideFinish => l.Hiding?
    case CutPlan => l.Cutting?
    case CutReadAudio => l.CuttingCamera?
    case CutAudioFinish => l.CuttingAudio?
    case CutAudioFails => l.CuttingAudio?
    case CutCameraFinish => l.CameraOnAir?
    case CutSceneFinish => l.CuttingScene?
    case Sync(seen, now, hits) => l.Idle? && "" !in seen && FirstHits(m.positions, Gone(m, seen), {}, hits)
    case SyncFails => l.Idle?
    case PruneFinish => l.Pruning?
    case Abort => l.Creating? || l.Cutting? || l.Assigning? || l.SettingAudio? || l.CuttingCamera? || l.CuttingScene?
  }

  /** The guarded state after a step. */
  ghost function NextMem(st: State, t: nat, a: Action): Mem
    requires Enabled(st, t, a)
  {
    var l := At(st, t);
    var m := st.mem;
    match a
    case CreateFinish(saveOk) => CreateCommit(m, l.id, l.name, saveOk).0
    case Rename(pid, name, saveOk) => RenameSection(m, pid, name, saveOk).0
    case DeleteFinish(saveOk) => DeleteCommit(m, l.pid, saveOk).0
    case AssignFinish(hits) => AssignCommit(m, l.pid, l.cid, hits).0
    case UnassignFinish => UnassignCommit(m, l.pid).0
    case AudioFinish => AudioCommit(m, l.pid, l.prev).0
    case NewScene(id, name, ids, saveOk) => CreateSceneSection(m, id, name, Dedupe(ids), saveOk).0
    case RenameScene(id, name, saveOk) => RenameSceneSection(m, id, name, saveOk).0
    case UpdateScene(id, ids, saveOk) => UpdateSceneSection(m, id, Dedupe(ids), saveOk).0
    case DropScene(id, saveOk) => DeleteSceneSection(m, id, saveOk).0
    case PreviewCamera(cid) => PreviewCameraSection(m, cid).0
    case PreviewScene(sid) => PreviewSceneSection(m, sid).0
    case HideFinish => HiddenCommit(m)
    case CutAudioFinish => AudioInternalCommit(m, SIMPLE, l.prev)
    case CutCameraFinish => CutCameraCommit(m, l.cid)
    case CutSceneFinish => CutSceneCommit(m, l.sid)
    case Sync(seen, now, hits) => SyncMark(m, seen, now, hits)
    case SyncFails => SyncFailed(m)
    case PruneFinish => SyncPrune(m, l.ids)
    case _ => m
  }

  /** Where the thread stands after a step. */
  ghost function NextLocal(st: State, t: nat, a: Action): Local
    requires Enabled(st, t, a)
  {
    var l := At(st, t);
    var m := st.mem;
    match a
    case CreateCheck(name, id) => Creating(name, id)
    case CreateInput(ok) => if ok then CreatedInput(l.name, l.id) else Idle
    case CreateFinish(saveOk) => if PositionNameIsTaken(m, l.name, SIMPLE) then LostName(l.id) else Idle
    case DeleteCheck(pid) => Deleting(pid)
    case DeleteInput(_) => DeletedInput(l.pid)
    case AssignCheck(pid, cid) => Assigning(pid, cid)
    case UnassignCheck(pid) => Unassigning(pid)
    case AudioCheck(pid) => SettingAudio(pid, m.audio)
    case CutBegin => if HiddenPresent(m) then Cutting else Hiding
    case HideFinish => Cutting
    case CutPlan =>
      (match PlanCut(m)
       case ShowCamera(cid) => CuttingCamera(cid)
       case ShowScene(sid, _) => CuttingScene(sid)
       case _ => Idle)
    case CutReadAudio => CuttingAudio(l.cid, m.audio)
    case CutAudioFinish => CameraOnAir(l.cid)
    case CutAudioFails => CameraOnAir(l.cid)
    case Sync(seen, now, _) => if Expired(m, seen, now) == {} then Idle else Pruning(Expired(m, seen, now))
    case _ => Idle
  }

  /** Which inputs exist after a step. */
  ghost function NextInputs(st: State, t: nat, a: Action): set<string>
    requires Enabled(st, t, a)
  {
    var l := At(st, t);
    match a
    case CreateInput(ok) => if ok then st.inputs + {l.id} else st.inputs
    case CreateCleanup(ok) => if ok then st.inputs - {l.id} else st.inputs
    case DeleteInput(ok) => if ok then st.inputs - {l.pid} else st.inputs
    case _ => st.inputs
  }

  ghost function Do(st: State, t: nat, a: Action): State
    requires Enabled(st, t, a)
  {
    var used := if a.CreateCheck? then st.used + {a.id} else st.used;
    State(NextMem(st, t, a), NextInputs(st, t, a), st.locals[t := NextLocal(st, t, a)], used)
  }

  /** A run: a step that is not enabled is not taken, so every sequence of steps is a run. */
  ghost function Run(st: State, trace: seq<(nat, Action)>): State {
    if trace == [] then st
    else
      var before := Run(st, trace[..|trace| - 1]);
      var (t, a) := trace[|trace| - 1];
      if Enabled(before, t, a) then Do(before, t, a) else before
  }

  lemma {:induction false} RunConcat(st: State, a: seq<(nat, Action)>, b: seq<(nat, Action)>)
    ensures Run(st, a + b) == Run(Run(st, a), b)
  {
    hide Enabled, Do;
    if b == [] {
      assert a + b == a;
    } else {
      var k := |b| - 1;
      RunConcat(st, a, b[..k]);
      assert (a + b)[..|a| + k] == a + b[..k];
    }
  }

  lemma RunCons(st: State, t: nat, a: Action, trace: seq<(nat, Action)>)
    requires Enabled(st, t, a)
    ensures Run(st, [(t, a)] + trace) == Run(Do(st, t, a), trace)
  {
    assert [(t, a)][..0] == [];
    assert Run(st, [(t, a)]) == Do(st, t, a);
    hide Enabled, Do;
    RunConcat(st, [(t, a)], trace);
  }

  /** Three steps that are all taken, and what runs later. */
  lemma RunThree(st: State, t1: nat, a1: Action, t2: nat, a2: Action, t3: nat, a3: Action, later: seq<(nat, Action)>)
    requires Enabled(st, t1, a1) && Enabled(Do(st, t1, a1), t2, a2) && Enabled(Do(Do(st, t1, a1), t2, a2), t3, a3)
    ensures Run(st, [(t1, a1), (t2, a2), (t3, a3)] + later) == Run(Do(Do(Do(st, t1, a1), t2, a2), t3, a3), later)
  {
    hide Enabled, Do, Run;
    RunCons(Do(Do(st, t1, a1), t2, a2), t3, a3, later);
    RunCons(Do(st, t1, a1), t2, a2, [(t3, a3)] + later);
    RunCons(st, t1, a1, [(t2, a2)] + ([(t3, a3)] + later));
    assert [(t1, a1), (t2, a2), (t3, a3)] + later == [(t1, a1)] + ([(t2, a2)] + ([(t3, a3)] + later));
  }

  // ----- Safety of every interleaving -----

  /** What a thread may rely on between its sections. */
  ghost predicate LocalOk(m: Mem, l: Local) {
    match l
    case Creating(_, id) => id !in m.positions && id != "" && id != SIMPLE
    case CreatedInput(_, id) => id !in m.positions && id != "" && id != SIMPLE
    case LostName(id) => id !in m.positions && id != "" && id != SIMPLE
    case Deleting(pid) => pid != SIMPLE
    case DeletedInput(pid) => pid != SIMPLE
    case Assigning(_, cid) => cid != ""
    case Cutting => m.hiddenReady
    case CuttingCamera(cid) => m.hiddenReady && cid != ""
    case CuttingAudio(cid, _) => m.hiddenReady && cid != ""
    case CameraOnAir(cid) => m.hiddenReady && cid != ""
    case Pruning(ids) => "" !in ids
    case _ => true
  }

  ghost predicate LocalsOk(st: State) {
    && st.mem.positions.Keys + st.inputs + {"", SIMPLE} <= st.used
    && (forall t, id :: t in st.locals && Claims(st.locals[t], id) ==> id in st.used)
    && (forall t :: t in st.locals ==> LocalOk(st.mem, st.locals[t]))
    && (forall t, u, id :: t in st.locals && u in st.locals && Claims(st.locals[t], id) && Claims(st.locals[u], id) ==>
         t == u)
  }

  ghost predicate Safe(st: State) { Inv(st.mem) && LocalsOk(st) }

  /** The steps that change positions, outside cuts and syncs. */
  predicate OnPositions(a: Action) {
    a.CreateFinish? || a.Rename? || a.DeleteFinish? || a.AssignFinish? || a.UnassignFinish? || a.AudioFinish?
  }

  predicate OnScenes(a: Action) {
    a.NewScene? || a.RenameScene? || a.UpdateScene? || a.DropScene? || a.PreviewCamera? || a.PreviewScene?
  }

  /** The steps of cuts and syncs, and those that change no guarded state. */
  predicate OnAirOrIdle(a: Action) { !OnPositions(a) && !OnScenes(a) }

  predicate OfCut(a: Action) { a.HideFinish? || a.CutAudioFinish? || a.CutCameraFinish? || a.CutSceneFinish? }

  lemma PositionStepKeepsInv(st: State, t: nat, a: Action)
    requires Safe(st) && Enabled(st, t, a) && OnPositions(a)
    ensures Inv(NextMem(st, t, a))
  {
    hide Inv, FirstHits, PositionNameIsTaken, CreateCommit, RenameSection;
    hide DeleteCommit, AssignCommit, UnassignCommit, Reflag;
    var l, m := At(st, t), st.mem;
    assert LocalOk(m, l);
    match a
    case CreateFinish(saveOk) => CreateKeeps(m, l.id, l.name, saveOk);
    case Rename(pid, name, saveOk) => RenameKeeps(m, pid, name, saveOk);
    case DeleteFinish(saveOk) => DeleteKeeps(m, l.pid, saveOk);
    case AssignFinish(hits) => AssignKeeps(m, l.pid, l.cid, hits);
    case UnassignFinish => UnassignKeeps(m, l.pid);
    case AudioFinish => if l.pid in m.positions { AudioKeeps(m, l.pid, l.prev); }
  }

  lemma SceneStepKeepsInv(st: State, t: nat, a: Action)
    requires Safe(st) && Enabled(st, t, a) && OnScenes(a)
    ensures Inv(NextMem(st, t, a))
  {
    hide Inv, Dedupe, ValidateSceneIDs, CleanList, PreviewCameraSection, PreviewSceneSection;
    hide CreateSceneSection, RenameSceneSection, UpdateSceneSection, DeleteSceneSection;
    var m := st.mem;
    match a
    case NewScene(id, name, ids, saveOk) =>
      ValidDedupedIsClean(m, ids);
      CreateSceneKeeps(m, id, name, Dedupe(ids), saveOk);
    case RenameScene(id, name, saveOk) => RenameSceneKeeps(m, id, name, saveOk);
    case UpdateScene(id, ids, saveOk) =>
      ValidDedupedIsClean(m, ids);
      UpdateSceneKeeps(m, id, Dedupe(ids), saveOk);
    case DropScene(id, saveOk) => DeleteSceneKeeps(m, id, saveOk);
    case PreviewCamera(cid) => PreviewKeeps(m, cid);
    case PreviewScene(sid) => PreviewKeeps(m, sid);
  }

  lemma CutStepKeepsInv(st: State, t: nat, a: Action)
    requires Safe(st) && Enabled(st, t, a) && OnAirOrIdle(a)
    ensures Inv(NextMem(st, t, a))
  {
    hide Inv, FirstHits, Gone, HiddenCommit, CutCameraCommit, CutSceneCommit, SyncMark, SyncPrune, AudioInternalCommit;
    var l, m := At(st, t), st.mem;
    assert LocalOk(m, l);
    match a
    case HideFinish => HiddenKeeps(m);
    case CutAudioFinish =>
      HiddenIsThere(m);
      AudioKeeps(m, SIMPLE, l.prev);
    case CutCameraFinish => CutKeeps(m, l.cid);
    case CutSceneFinish => CutKeeps(m, l.sid);
    case Sync(seen, now, hits) => SyncKeeps(m, seen, now, hits);
    case SyncFails => SyncKeeps(m, {}, 0, {});
    case PruneFinish => PruneKeeps(m, l.ids);
    case _ =>
  }

  /** The guarded state keeps its invariant through every enabled step. */
  lemma StepKeepsInv(st: State, t: nat, a: Action)
    requires Safe(st) && Enabled(st, t, a)
    ensures Inv(NextMem(st, t, a))
  {
    hide Enabled, NextMem, Inv, LocalsOk;
    if OnPositions(a) {
      PositionStepKeepsInv(st, t, a);
    } else if OnScenes(a) {
      SceneStepKeepsInv(st, t, a);
    } else {
      CutStepKeepsInv(st, t, a);
    }
  }

  lemma HiddenIsThere(m: Mem)
    requires Inv(m) && m.hiddenReady
    ensures SIMPLE in m.positions
  {}

  // ----- Which positions there are after a step -----

  predicate SameKeys(m: Mem, m': Mem) {
    m'.positions.Keys == m.positions.Keys && m'.hiddenReady == m.hiddenReady
  }

  lemma CreateKeys(m: Mem, id: string, name: string, ok: bool)
    ensures var m' := CreateCommit(m, id, name, ok).0;
      && m'.hiddenReady == m.hiddenReady
      && m'.positions.Keys == (if PositionNameIsTaken(m, name, SIMPLE) then m.positions.Keys
                               else if ok then m.positions.Keys + {id} else m.positions.Keys - {id})
  {
    hide PositionDefs, PositionNameIsTaken;
  }

  lemma RenameKeys(m: Mem, id: string, name: string, ok: bool)
    ensures SameKeys(m, RenameSection(m, id, name, ok).0)
  {
    hide PositionDefs, PositionNameIsTaken;
  }

  lemma DeleteKeys(m: Mem, id: string, ok: bool)
    ensures DeleteCommit(m, id, ok).0.positions.Keys == m.positions.Keys - {id}
    ensures DeleteCommit(m, id, ok).0.hiddenReady == m.hiddenReady
  {
    hide PositionDefs;
  }

  lemma AssignedKeys(m: Mem, id: string, cid: string, hits: set<string>)
    ensures SameKeys(m, AssignCommit(m, id, cid, hits).0) && SameKeys(m, UnassignCommit(m, id).0)
  {}

  lemma AudioKeys(m: Mem, id: string, prev: string)
    ensures SameKeys(m, AudioCommit(m, id, prev).0) && SameKeys(m, AudioInternalCommit(m, id, prev))
  {}

  lemma NewSceneKeys(m: Mem, id: string, name: string, ids: seq<string>, ok: bool)
    ensures SameKeys(m, CreateSceneSection(m, id, name, ids, ok).0)
  {
    hide SceneDefs, ValidateSceneIDs;
  }

  lemma ChangedSceneKeys(m: Mem, id: string, name: string, ids: seq<string>, ok: bool)
    ensures SameKeys(m, RenameSceneSection(m, id, name, ok).0) && SameKeys(m, UpdateSceneSection(m, id, ids, ok).0)
  {
    hide SceneDefs, ValidateSceneIDs, SceneNameIsTaken;
  }

  lemma DropAndPreviewKeys(m: Mem, id: string, ok: bool)
    ensures SameKeys(m, DeleteSceneSection(m, id, ok).0)
    ensures SameKeys(m, PreviewCameraSection(m, id).0) && SameKeys(m, PreviewSceneSection(m, id).0)
  {
    hide SceneDefs;
  }

  lemma CutAndSyncKeys(m: Mem, id: string, seen: set<string>, now: int, hits: set<string>)
    ensures SameKeys(m, CutCameraCommit(m, id)) && SameKeys(m, CutSceneCommit(m, id))
    ensures SameKeys(m, SyncMark(m, seen, now, hits)) && SameKeys(m, SyncFailed(m)) && SameKeys(m, SyncPrune(m, seen))
    ensures HiddenCommit(m).positions.Keys == m.positions.Keys + {SIMPLE} && HiddenCommit(m).hiddenReady
  {
    hide MarkedCameras, MarkedOffline;
  }

  /** The positions after a step: a create adds its own or takes it back, a delete removes its own, and the hidden one
      is registered. */
  ghost function NextKeys(st: State, t: nat, a: Action): set<string>
    requires Enabled(st, t, a)
  {
    var l, keys := At(st, t), st.mem.positions.Keys;
    match a
    case CreateFinish(saveOk) =>
      if PositionNameIsTaken(st.mem, l.name, SIMPLE) then keys else if saveOk then keys + {l.id} else keys - {l.id}
    case DeleteFinish(_) => keys - {l.pid}
    case HideFinish => keys + {SIMPLE}
    case _ => keys
  }

  ghost predicate KeysAreNext(st: State, t: nat, a: Action)
    requires Enabled(st, t, a)
  {
    && NextMem(st, t, a).positions.Keys == NextKeys(st, t, a)
    && NextMem(st, t, a).hiddenReady == (st.mem.hiddenReady || a.HideFinish?)
  }

  lemma PositionStepKeys(st: State, t: nat, a: Action)
    requires Enabled(st, t, a) && OnPositions(a)
    ensures KeysAreNext(st, t, a)
  {
    var l, m := At(st, t), st.mem;
    hide CreateCommit, RenameSection, DeleteCommit, AssignCommit, UnassignCommit, AudioCommit, AudioInternalCommit;
    hide CreateSceneSection, RenameSceneSection, UpdateSceneSection, DeleteSceneSection, PreviewCameraSection;
    hide PreviewSceneSection, CutCameraCommit, CutSceneCommit, SyncMark, SyncPrune, SyncFailed, HiddenCommit;
    hide FirstHits, PositionNameIsTaken, Gone, Dedupe, PlanCut;
    match a
    case CreateFinish(saveOk) => CreateKeys(m, l.id, l.name, saveOk);
    case Rename(pid, name, saveOk) => RenameKeys(m, pid, name, saveOk);
    case DeleteFinish(saveOk) => DeleteKeys(m, l.pid, saveOk);
    case AssignFinish(hits) => AssignedKeys(m, l.pid, l.cid, hits);
    case UnassignFinish => AssignedKeys(m, l.pid, "", {});
    case AudioFinish => AudioKeys(m, l.pid, l.prev);
  }

  lemma SceneStepKeys(st: State, t: nat, a: Action)
    requires Enabled(st, t, a) && OnScenes(a)
    ensures KeysAreNext(st, t, a)
  {
    var m := st.mem;
    hide CreateCommit, RenameSection, DeleteCommit, AssignCommit, UnassignCommit, AudioCommit, AudioInternalCommit;
    hide CreateSceneSection, RenameSceneSection, UpdateSceneSection, DeleteSceneSection, PreviewCameraSection;
    hide PreviewSceneSection, CutCameraCommit, CutSceneCommit, SyncMark, SyncPrune, SyncFailed, HiddenCommit;
    hide FirstHits, PositionNameIsTaken, Gone, Dedupe, PlanCut;
    match a
    case NewScene(id, name, ids, saveOk) => NewSceneKeys(m, id, name, Dedupe(ids), saveOk);
    case RenameScene(id, name, saveOk) => ChangedSceneKeys(m, id, name, [], saveOk);
    case UpdateScene(id, ids, saveOk) => ChangedSceneKeys(m, id, "", Dedupe(ids), saveOk);
    case DropScene(id, saveOk) => DropAndPreviewKeys(m, id, saveOk);
    case PreviewCamera(cid) => DropAndPreviewKeys(m, cid, true);
    case PreviewScene(sid) => DropAndPreviewKeys(m, sid, true);
  }

  lemma CutStepKeys(st: State, t: nat, a: Action)
    requires Enabled(st, t, a)
    requires OfCut(a)
    ensures KeysAreNext(st, t, a)
  {
    var l, m := At(st, t), st.mem;
    hide CreateCommit, RenameSection, DeleteCommit, AssignCommit, UnassignCommit, AudioCommit, AudioInternalCommit;
    hide CreateSceneSection, RenameSceneSection, UpdateSceneSection, DeleteSceneSection, PreviewCameraSection;
    hide PreviewSceneSection, CutCameraCommit, CutSceneCommit, SyncMark, SyncPrune, SyncFailed, HiddenCommit;
    hide FirstHits, PositionNameIsTaken, Gone, Dedupe, PlanCut;
    match a
    case HideFinish => CutAndSyncKeys(m, "", {}, 0, {});
    case CutAudioFinish => AudioKeys(m, SIMPLE, l.prev);
    case CutCameraFinish => CutAndSyncKeys(m, l.cid, {}, 0, {});
    case CutSceneFinish => CutAndSyncKeys(m, l.sid, {}, 0, {});
  }

  lemma SyncStepKeys(st: State, t: nat, a: Action)
    requires Enabled(st, t, a) && OnAirOrIdle(a)
    requires !OfCut(a)
    ensures KeysAreNext(st, t, a)
  {
    var l, m := At(st, t), st.mem;
    hide CreateCommit, RenameSection, DeleteCommit, AssignCommit, UnassignCommit, AudioCommit, AudioInternalCommit;
    hide CreateSceneSection, RenameSceneSection, UpdateSceneSection, DeleteSceneSection, PreviewCameraSection;
    hide PreviewSceneSection, CutCameraCommit, CutSceneCommit, SyncMark, SyncPrune, SyncFailed, HiddenCommit;
    hide FirstHits, PositionNameIsTaken, Gone, Dedupe, PlanCut;
    match a
    case Sync(seen, now, hits) => CutAndSyncKeys(m, "", seen, now, hits);
    case SyncFails => CutAndSyncKeys(m, "", {}, 0, {});
    case PruneFinish => CutAndSyncKeys(m, "", l.ids, 0, {});
    case _ =>
  }

  lemma StepKeysExactly(st: State, t: nat, a: Action)
    requires Enabled(st, t, a)
    ensures KeysAreNext(st, t, a)
  {
    hide KeysAreNext, Enabled;
    if OnPositions(a) {
      PositionStepKeys(st, t, a);
    } else if OnScenes(a) {
      SceneStepKeys(st, t, a);
    } else if OfCut(a) {
      CutStepKeys(st, t, a);
    } else {
      SyncStepKeys(st, t, a);
    }
  }

  /** A position id appears only through the create that claims it; the hidden position stays. */
  lemma StepKeys(st: State, t: nat, a: Action)
    requires Enabled(st, t, a)
    ensures forall id :: id in NextMem(st, t, a).positions ==>
      id in st.mem.positions || id == SIMPLE || (At(st, t).CreatedInput? && id == At(st, t).id && a.CreateFinish?)
    ensures st.mem.hiddenReady || a.HideFinish? ==> NextMem(st, t, a).hiddenReady
  {
    StepKeysExactly(st, t, a);
    hide NextMem, PositionNameIsTaken, FirstHits, Gone, PlanCut;
  }

  lemma StepKeepsLocals(st: State, t: nat, a: Action)
    requires Safe(st) && Enabled(st, t, a)
    ensures LocalsOk(Do(st, t, a))
  {
    StepKeepsUsed(st, t, a);
    NextLocalOk(st, t, a);
    hide NextMem, NextLocal, Enabled, Inv, NextInputs, LocalOk;
    var st' := Do(st, t, a);
    forall u | u in st'.locals ensures LocalOk(st'.mem, st'.locals[u]) {
      if u != t { OthersStayOk(st, t, a, u); }
    }
    ClaimsStayDistinct(st, t, a);
  }

  lemma ClaimsStayDistinct(st: State, t: nat, a: Action)
    requires Safe(st) && Enabled(st, t, a)
    ensures var ls := Do(st, t, a).locals;
      forall u, v, id :: u in ls && v in ls && Claims(ls[u], id) && Claims(ls[v], id) ==> u == v
  {
    hide NextMem, NextLocal, Enabled, Inv, NextInputs, LocalOk;
    var ls := Do(st, t, a).locals;
    forall u, v, id | u in ls && v in ls && Claims(ls[u], id) && Claims(ls[v], id) ensures u == v {
      if Claims(NextLocal(st, t, a), id) { NextClaims(st, t, a, id); }
    }
  }

  lemma StepKeepsUsed(st: State, t: nat, a: Action)
    requires Safe(st) && Enabled(st, t, a)
    ensures var st' := Do(st, t, a);
      && st'.mem.positions.Keys + st'.inputs + {"", SIMPLE} <= st'.used
      && (forall u, id :: u in st'.locals && Claims(st'.locals[u], id) ==> id in st'.used)
  {
    StepKeys(st, t, a);
    NextInputsClaimed(st, t, a);
    hide NextMem, NextLocal, NextInputs, Inv, Enabled, LocalOk;
    var l, st' := At(st, t), Do(st, t, a);
    assert l.Creating? || l.CreatedInput? ==> Claims(l, l.id);
    forall u, id | u in st'.locals && Claims(st'.locals[u], id) ensures id in st'.used {
      if u == t { NextClaims(st, t, a, id); }
    }
  }

  lemma NextInputsClaimed(st: State, t: nat, a: Action)
    requires Enabled(st, t, a)
    ensures forall id :: id in NextInputs(st, t, a) ==> id in st.inputs || (At(st, t).Creating? && id == At(st, t).id)
  {}

  lemma NextLocalOk(st: State, t: nat, a: Action)
    requires Safe(st) && Enabled(st, t, a)
    ensures LocalOk(NextMem(st, t, a), NextLocal(st, t, a))
  {
    assert LocalOk(st.mem, At(st, t));
    if a.CreateFinish? {
      hide PositionDefs, Inv;
    } else {
      StepKeys(st, t, a);
      if At(st, t).Idle? {
        assert "" !in st.mem.cameras;
        hide NextMem, Inv;
        NextLocalOkFromIdle(st, t, a, NextMem(st, t, a));
      } else {
        hide NextMem;
        NextLocalOkUnderWay(st, t, a, NextMem(st, t, a));
      }
    }
  }

  lemma NextLocalOkFromIdle(st: State, t: nat, a: Action, m: Mem)
    requires Enabled(st, t, a) && At(st, t).Idle?
    requires "" !in st.mem.cameras && "" in st.used && SIMPLE in st.used && st.mem.positions.Keys <= st.used
    requires st.mem.hiddenReady ==> m.hiddenReady
    requires forall id :: id in m.positions ==> id in st.mem.positions || id == SIMPLE
    ensures LocalOk(m, NextLocal(st, t, a))
  {
    hide FirstHits, PositionNameIsTaken, PlanCut, Gone;
  }

  lemma NextLocalOkUnderWay(st: State, t: nat, a: Action, m: Mem)
    requires Enabled(st, t, a) && !At(st, t).Idle? && !a.CreateFinish?
    requires LocalOk(st.mem, At(st, t))
    requires st.mem.hiddenReady || a.HideFinish? ==> m.hiddenReady
    requires forall id :: id in m.positions ==> id in st.mem.positions || id == SIMPLE
    ensures LocalOk(m, NextLocal(st, t, a))
  {
    PlannedCameraHasName(st.mem);
    hide PlanCut, FirstHits;
  }

  lemma PlannedCameraHasName(m: Mem)
    ensures PlanCut(m).ShowCamera? ==> PlanCut(m).cid != ""
  {}

  lemma OthersStayOk(st: State, t: nat, a: Action, u: nat)
    requires Safe(st) && Enabled(st, t, a) && u in st.locals && u != t
    ensures LocalOk(NextMem(st, t, a), st.locals[u])
  {
    StepKeys(st, t, a);
    hide NextMem, Inv, Enabled;
    assert LocalOk(st.mem, st.locals[u]);
    var l := At(st, t);
    if l.CreatedInput? { assert Claims(l, l.id); }
    if st.locals[u].Creating? || st.locals[u].CreatedInput? || st.locals[u].LostName? {
      assert Claims(st.locals[u], st.locals[u].id);
    }
  }

  lemma NextClaims(st: State, t: nat, a: Action, id: string)
    requires Enabled(st, t, a) && Claims(NextLocal(st, t, a), id)
    ensures Claims(At(st, t), id) || (a.CreateCheck? && id == a.id && id !in st.used)
  {}

  lemma StepKeepsSafe(st: State, t: nat, a: Action)
    requires Safe(st) && Enabled(st, t, a)
    ensures Safe(Do(st, t, a))
  {
    StepKeepsInv(st, t, a);
    StepKeepsLocals(st, t, a);
    hide Inv, LocalsOk, Enabled, NextMem, NextLocal, NextInputs;
  }

  /** In every interleaving, with every failure the environment can produce: no camera is in two positions, the
      audio id names a flagged position, names are distinct, the previewed scene exists, scene lists are clean
      and each file agrees with memory when its latest save succeeded. */
  lemma {:induction false} EveryInterleavingIsSafe(st: State, trace: seq<(nat, Action)>)
    requires Safe(st)
    ensures Safe(Run(st, trace))
  {
    if trace != [] {
      EveryInterleavingIsSafe(st, trace[..|trace| - 1]);
      var before := Run(st, trace[..|trace| - 1]);
      var (t, a) := trace[|trace| - 1];
      if Enabled(before, t, a) { StepKeepsSafe(before, t, a); }
    }
  }

  // ----- What overlap breaks, and exactly when -----

  /** The step does not act on something its thread read too long ago. */
  ghost predicate Timely(st: State, t: nat, a: Action)
    requires Enabled(st, t, a)
  {
    var l := At(st, t);
    var m := st.mem;
    match a
    case AssignFinish(_) => l.pid in m.positions ==> Online(m, l.cid)
    case AudioFinish => l.pid in m.positions ==> m.audio in {"", l.prev, l.pid}
    case CutAudioFinish => m.audio in {"", l.prev, SIMPLE}
    case CutCameraFinish => Online(m, l.cid)
    case CutSceneFinish => l.sid in m.scenes
    case PruneFinish => Holders(m.positions, l.ids) == {}
    case _ => true
  }

  lemma CutStepStrong(st: State, t: nat, a: Action)
    requires Safe(st) && Strong(st.mem) && Enabled(st, t, a)
    requires OfCut(a)
    ensures Strong(NextMem(st, t, a)) <==> Timely(st, t, a)
  {
    var l, m := At(st, t), st.mem;
    assert LocalOk(m, l);
    hide Inv, Strong, FirstHits, Gone, HiddenCommit, CutCameraCommit, CutSceneCommit, AudioInternalCommit;
    match a
    case HideFinish => HiddenStrong(m);
    case CutAudioFinish =>
      HiddenIsThere(m);
      AudioStrong(m, SIMPLE, l.prev);
    case CutCameraFinish =>
      HiddenIsThere(m);
      CutCameraStrong(m, l.cid);
    case CutSceneFinish => CutSceneStrong(m, l.sid);
  }

  lemma SyncStepStrong(st: State, t: nat, a: Action)
    requires Safe(st) && Strong(st.mem) && Enabled(st, t, a) && OnAirOrIdle(a)
    requires !OfCut(a)
    ensures Strong(NextMem(st, t, a)) <==> Timely(st, t, a)
  {
    var l, m := At(st, t), st.mem;
    assert LocalOk(m, l);
    hide Inv, Strong, FirstHits, Gone, SyncMark, SyncPrune, PlanCut, PositionNameIsTaken;
    match a
    case Sync(seen, now, hits) => SyncMarkStrong(m, seen, now, hits);
    case SyncFails => SyncFailedStrong(m);
    case PruneFinish => PruneStrong(m, l.ids);
    case _ =>
  }

  /** A step keeps the flag unique, the positions on online cameras and the live scene in existence
      exactly when it is timely. */
  lemma StepStrong(st: State, t: nat, a: Action)
    requires Safe(st) && Strong(st.mem) && Enabled(st, t, a)
    ensures Strong(NextMem(st, t, a)) <==> Timely(st, t, a)
  {
    hide Enabled, NextMem, Inv, LocalsOk, Strong;
    if OnPositions(a) {
      PositionStepStrong(st, t, a);
    } else if OnScenes(a) {
      SceneStepStrong(st, t, a);
    } else if OfCut(a) {
      CutStepStrong(st, t, a);
    } else {
      SyncStepStrong(st, t, a);
    }
  }

  lemma SyncFailedStrong(m: Mem)
    requires Strong(m)
    ensures Strong(SyncFailed(m))
  {}

  lemma PositionStepStrong(st: State, t: nat, a: Action)
    requires Safe(st) && Strong(st.mem) && Enabled(st, t, a) && OnPositions(a)
    ensures Strong(NextMem(st, t, a)) <==> Timely(st, t, a)
  {
    hide Inv, Strong, FirstHits, PositionNameIsTaken, CreateCommit, RenameSection, DeleteCommit, UnassignCommit, Reflag;
    var l, m := At(st, t), st.mem;
    assert LocalOk(m, l);
    match a
    case CreateFinish(saveOk) => CreateStrong(m, l.id, l.name, saveOk);
    case Rename(pid, name, saveOk) => RenameStrong(m, pid, name, saveOk);
    case DeleteFinish(saveOk) => DeleteStrong(m, l.pid, saveOk);
    case AssignFinish(hits) => if l.pid in m.positions { AssignStrong(m, l.pid, l.cid, hits); }
    case UnassignFinish => UnassignStrong(m, l.pid);
    case AudioFinish => if l.pid in m.positions { AudioStrong(m, l.pid, l.prev); }
  }

  lemma SceneStepStrong(st: State, t: nat, a: Action)
    requires Safe(st) && Strong(st.mem) && Enabled(st, t, a) && OnScenes(a)
    ensures Strong(NextMem(st, t, a))
  {
    hide Inv, Strong, Dedupe, ValidateSceneIDs, PreviewCameraSection, PreviewSceneSection;
    hide CreateSceneSection, RenameSceneSection, UpdateSceneSection, DeleteSceneSection;
    var m := st.mem;
    match a
    case NewScene(id, name, ids, saveOk) => StoreSceneStrong(m, id, name, Dedupe(ids), saveOk);
    case RenameScene(id, name, saveOk) => RenameOrDeleteSceneStrong(m, id, name, saveOk);
    case UpdateScene(id, ids, saveOk) => StoreSceneStrong(m, id, "", Dedupe(ids), saveOk);
    case DropScene(id, saveOk) => RenameOrDeleteSceneStrong(m, id, "", saveOk);
    case PreviewCamera(cid) => PreviewStrong(m, cid);
    case PreviewScene(sid) => PreviewStrong(m, sid);
  }

  /** Every step the run takes is timely. */
  ghost predicate AllTimely(st: State, trace: seq<(nat, Action)>) {
    trace == [] ||
    (var before := Run(st, trace[..|trace| - 1]);
     var (t, a) := trace[|trace| - 1];
     AllTimely(st, trace[..|trace| - 1]) && (Enabled(before, t, a) ==> Timely(before, t, a)))
  }

  /** An interleaving keeps the three sequential properties all along exactly when all its steps are timely. */
  lemma {:induction false} StrongExactlyWhenTimely(st: State, trace: seq<(nat, Action)>)
    requires Safe(st) && Strong(st.mem)
    ensures AllTimely(st, trace) <==> forall n :: 0 <= n <= |trace| ==> Strong(Run(st, trace[..n]).mem)
  {
    hide Strong, Safe, Enabled, Timely, NextMem, NextLocal, NextInputs;
    if trace == [] {
      assert trace[..0] == [];
    } else {
      var k := |trace| - 1;
      var init := trace[..k];
      StrongExactlyWhenTimely(st, init);
      EveryInterleavingIsSafe(st, init);
      assert forall n :: 0 <= n <= k ==> trace[..n] == init[..n];
      assert init[..k] == init && trace[..k + 1] == trace;
      var before := Run(st, init);
      var (t, a) := trace[k];
      if Strong(before.mem) && Enabled(before, t, a) { StepStrong(before, t, a); }
      assert AllTimely(st, trace) <==>
        (forall n :: 0 <= n <= k ==> Strong(Run(st, trace[..n]).mem)) && Strong(Run(st, trace).mem);
    }
  }
}
