/** The sequential model: every public operation runs alone, from its first section to its last OBS call.
    Each operation takes the calls the environment fails while it runs; everything it does is a function of that. */
module Sequential {
  import opened Options
  import opened Model
  import Names
  import opened Obs
  import opened Sections

  datatype Sys = Sys(mem: Mem, obs: Tables)

  // ----- OBS calls that operations share -----

  /** Switches off, and mutes when they carried the audio, the positions a section has just cleared. `m` is the
      guarded state before the section. */
  function Settle(o: Tables, m: Mem, hits: set<string>, f: Faults): Tables {
    var off := set id | id in hits && id in o.inputs && SetEnabled(id) !in f;
    var quiet := set id | id in hits && id in m.positions && m.positions[id].isAudio && SetMuted(id) !in f;
    o.(enabled := map id | id in o.enabled.Keys + off :: id !in off && o.enabled[id],
       muted := map id | id in o.muted.Keys + quiet :: id in quiet || o.muted[id])
  }

  function IdSet(ids: seq<string>): set<string> { set x | x in ids }

  /** applyExclusiveVisibility over the positions in the order the map was iterated; it stops at the first error. */
  function ApplyExclusive(o: Tables, order: seq<string>, enable: set<string>, f: Faults): (Tables, bool)
    decreases order
  {
    if order == [] then (o, true)
    else
      var (o', ok) := Enable(o, order[0], order[0] in enable, f);
      if ok then ApplyExclusive(o', order[1..], enable, f) else (o', false)
  }

  /** Mutes the audio position read before, when there is another one; an error is only logged. */
  function MutePrevious(o: Tables, pid: string, prev: string, f: Faults): Tables {
    if prev != "" && prev != pid then Mute(o, prev, true, f).0 else o
  }

  /** The calls of a delete: off when occupied, muted when it carried the audio, then removed; errors are only
      logged. */
  function DropInput(o: Tables, id: string, p: Position, f: Faults): Tables {
    var o1 := if p.cameraID != "" then Enable(o, id, false, f).0 else o;
    var o2 := if p.isAudio then Mute(o1, id, true, f).0 else o1;
    Remove(o2, id, f).0
  }

  // ----- Positions -----

  ghost function CreatePosition(s: Sys, name: string, id: string, f: Faults): (Sys, Outcome<Position>) {
    match Names.ValidatePositionName(name)
    case Err(e) => (s, Err(e))
    case Ok(trimmed) =>
      if PositionNameIsTaken(s.mem, trimmed, SIMPLE) then (s, Err(PositionNameTaken))
      else
        var (o, ok) := Create(s.obs, id, f);
        if !ok then (s, Err(OBSUnreachable))
        else
          var (m, r) := CreateCommit(s.mem, id, trimmed, SavePositions !in f);
          (Sys(m, o), r)
  }

  ghost function RenamePosition(s: Sys, id: string, name: string, f: Faults): (Sys, Outcome<Position>) {
    if id == SIMPLE then (s, Err(ReservedPosition))
    else
      match Names.ValidatePositionName(name)
      case Err(e) => (s, Err(e))
      case Ok(trimmed) =>
        var (m, r) := RenameSection(s.mem, id, trimmed, SavePositions !in f);
        (s.(mem := m), r)
  }

  ghost function DeletePosition(s: Sys, id: string, f: Faults): (Sys, Outcome<()>) {
    if id == SIMPLE then (s, Err(ReservedPosition))
    else if id !in s.mem.positions then (s, Err(PositionNotFound))
    else
      var (m, r) := DeleteCommit(s.mem, id, SavePositions !in f);
      (Sys(m, DropInput(s.obs, id, s.mem.positions[id], f)), r)
  }

  function AssignCamera(s: Sys, pid: string, cid: string, f: Faults): (Sys, Outcome<Position>) {
    if pid == SIMPLE then (s, Err(ReservedPosition))
    else if pid !in s.mem.positions then (s, Err(PositionNotFound))
    else if cid !in s.mem.cameras then (s, Err(CameraNotFound))
    else if !s.mem.cameras[cid].online then (s, Err(CameraOffline))
    else if s.mem.positions[pid].cameraID == cid then (s, Ok(s.mem.positions[pid]))
    else
      match Update(s.obs, pid, s.mem.cameras[cid].sourceURL, f)
      case (_, InputMissing) => (s, Err(PositionOBSInputMissing))
      case (_, Unreachable) => (s, Err(OBSUnreachable))
      case (o, Updated) =>
        var hits := Holders(s.mem.positions, {cid}) - {pid};
        var (m, r) := AssignCommit(s.mem, pid, cid, hits);
        (Sys(m, Settle(o, s.mem, hits, f)), r)
  }

  function UnassignPosition(s: Sys, pid: string, f: Faults): (Sys, Outcome<Position>) {
    if pid == SIMPLE then (s, Err(ReservedPosition))
    else if pid !in s.mem.positions then (s, Err(PositionNotFound))
    else if s.mem.positions[pid].cameraID == "" then (s, Ok(s.mem.positions[pid]))
    else
      var (m, r) := UnassignCommit(s.mem, pid);
      (Sys(m, Settle(s.obs, s.mem, {pid}, f)), r)
  }

  function SetAudioPosition(s: Sys, pid: string, f: Faults): (Sys, Outcome<Position>) {
    if pid == SIMPLE then (s, Err(ReservedPosition))
    else if pid !in s.mem.positions then (s, Err(PositionNotFound))
    else if s.mem.positions[pid].cameraID == "" then (s, Err(PositionEmpty))
    else
      var o := MutePrevious(s.obs, pid, s.mem.audio, f);
      var (o', ok) := Mute(o, pid, false, f);
      if !ok then (s.(obs := o), Err(OBSUnreachable))
      else
        var (m, r) := AudioCommit(s.mem, pid, s.mem.audio);
        (Sys(m, o'), r)
  }

  // ----- Scenes -----

  ghost function CreateScene(s: Sys, name: string, ids: seq<string>, id: string, f: Faults): (Sys, Outcome<Scene>) {
    match Names.ValidateSceneName(name)
    case Err(e) => (s, Err(e))
    case Ok(trimmed) =>
      var (m, r) := CreateSceneSection(s.mem, id, trimmed, Dedupe(ids), SaveScenes !in f);
      (s.(mem := m), r)
  }

  ghost function RenameScene(s: Sys, id: string, name: string, f: Faults): (Sys, Outcome<Scene>) {
    match Names.ValidateSceneName(name)
    case Err(e) => (s, Err(e))
    case Ok(trimmed) =>
      var (m, r) := RenameSceneSection(s.mem, id, trimmed, SaveScenes !in f);
      (s.(mem := m), r)
  }

  /** A live scene's new list is applied to OBS at once; an OBS error there is only logged. */
  ghost function UpdateScenePositions(s: Sys, id: string, ids: seq<string>, order: seq<string>, f: Faults)
    : (Sys, Outcome<Scene>)
  {
    var (m, r) := UpdateSceneSection(s.mem, id, Dedupe(ids), SaveScenes !in f);
    if r.Ok? && m.live.liveKind == KindScene && m.live.liveID == id
    then (Sys(m, ApplyExclusive(s.obs, order, IdSet(Dedupe(ids)), f).0), r)
    else (s.(mem := m), r)
  }

  ghost function DeleteScene(s: Sys, id: string, f: Faults): (Sys, Outcome<()>) {
    var (m, r) := DeleteSceneSection(s.mem, id, SaveScenes !in f);
    (s.(mem := m), r)
  }

  function SetPreviewCamera(s: Sys, cid: string): (Sys, Outcome<LiveState>) {
    var (m, r) := PreviewCameraSection(s.mem, cid);
    (s.(mem := m), r)
  }

  function SetPreviewScene(s: Sys, sid: string): (Sys, Outcome<LiveState>) {
    var (m, r) := PreviewSceneSection(s.mem, sid);
    (s.(mem := m), r)
  }

  // ----- Cut -----

  /** ensureHiddenPosition: a failing creation is tolerated. */
  function EnsureHidden(s: Sys, f: Faults): Sys {
    if HiddenPresent(s.mem) then s
    else Sys(HiddenCommit(s.mem), Create(s.obs, SIMPLE, f).0)
  }

  /** The automatic audio of a camera cut; an error leaves the audio position as it was and is only logged. */
  function FollowAudio(s: Sys, f: Faults): Sys {
    var o := MutePrevious(s.obs, SIMPLE, s.mem.audio, f);
    var (o', ok) := Mute(o, SIMPLE, false, f);
    if ok then Sys(AudioInternalCommit(s.mem, SIMPLE, s.mem.audio), o') else s.(obs := o)
  }

  function CutToCamera(s: Sys, cid: string, order: seq<string>, f: Faults): (Sys, Outcome<LiveState>)
    requires cid in s.mem.cameras
  {
    match Update(s.obs, SIMPLE, s.mem.cameras[cid].sourceURL, f)
    case (_, InputMissing) => (s, Err(PositionOBSInputMissing))
    case (_, Unreachable) => (s, Err(OBSUnreachable))
    case (o, Updated) =>
      var (o', ok) := ApplyExclusive(o, order, {SIMPLE}, f);
      if !ok then (s.(obs := o'), Err(OBSUnreachable))
      else
        var s' := FollowAudio(s.(obs := o'), f);
        var m := CutCameraCommit(s'.mem, cid);
        (s'.(mem := m), Ok(m.live))
  }

  function CutToScene(s: Sys, sid: string, enable: seq<string>, order: seq<string>, f: Faults)
    : (Sys, Outcome<LiveState>)
  {
    var (o, ok) := ApplyExclusive(s.obs, order, IdSet(enable), f);
    if !ok then (s.(obs := o), Err(OBSUnreachable))
    else
      var m := CutSceneCommit(s.mem, sid);
      (Sys(m, o), Ok(m.live))
  }

  function Cut(s: Sys, order: seq<string>, f: Faults): (Sys, Outcome<LiveState>) {
    var s' := EnsureHidden(s, f);
    match PlanCut(s'.mem)
    case Refuse(e) => (s', Err(e))
    case AlreadyLive => (s', Ok(s'.mem.live))
    case ShowCamera(cid) => CutToCamera(s', cid, order, f)
    case ShowScene(sid, enable) => CutToScene(s', sid, enable, order, f)
  }

  // ----- Sync -----

  /** One sync; `streams` is None when the media server could not be asked. */
  function SyncOnce(s: Sys, streams: Option<set<string>>, now: int, f: Faults): Sys {
    match streams
    case None => s.(mem := SyncFailed(s.mem))
    case Some(seen) =>
      var hits := Holders(s.mem.positions, Gone(s.mem, seen));
      var expired := Expired(s.mem, seen, now);
      var m := SyncMark(s.mem, seen, now, hits);
      Sys(SyncPrune(m, expired), Settle(s.obs, s.mem, hits, f))
  }

  // ----- Runs -----

  datatype Command =
    | DoCreatePosition(name: string, id: string)
    | DoRenamePosition(id: string, name: string)
    | DoDeletePosition(id: string)
    | DoAssignCamera(pid: string, cid: string)
    | DoUnassignPosition(pid: string)
    | DoSetAudioPosition(pid: string)
    | DoCreateScene(name: string, ids: seq<string>, id: string)
    | DoRenameScene(id: string, name: string)
    | DoUpdateScene(id: string, ids: seq<string>, order: seq<string>)
    | DoDeleteScene(id: string)
    | DoPreviewCamera(cid: string)
    | DoPreviewScene(sid: string)
    | DoEnsureHidden
    | DoCut(order: seq<string>)
    | DoSync(streams: Option<set<string>>, now: int)

  ghost predicate Enumerates(order: seq<string>, keys: set<string>) {
    forall id :: id in order <==> id in keys
  }

  /** Generated ids are new, streams have names, and a map iteration visits every key. */
  ghost predicate Legal(s: Sys, c: Command, f: Faults) {
    match c
    case DoCreatePosition(_, id) => id !in s.mem.positions && id != "" && id != SIMPLE
    case DoCreateScene(_, _, id) => id !in s.mem.scenes
    case DoUpdateScene(_, _, order) => Enumerates(order, s.mem.positions.Keys)
    case DoCut(order) => Enumerates(order, EnsureHidden(s, f).mem.positions.Keys)
    case DoSync(streams, _) => streams.Some? ==> "" !in streams.value
    case _ => true
  }

  ghost function Exec(s: Sys, c: Command, f: Faults): Sys {
    match c
    case DoCreatePosition(name, id) => CreatePosition(s, name, id, f).0
    case DoRenamePosition(id, name) => RenamePosition(s, id, name, f).0
    case DoDeletePosition(id) => DeletePosition(s, id, f).0
    case DoAssignCamera(pid, cid) => AssignCamera(s, pid, cid, f).0
    case DoUnassignPosition(pid) => UnassignPosition(s, pid, f).0
    case DoSetAudioPosition(pid) => SetAudioPosition(s, pid, f).0
    case DoCreateScene(name, ids, id) => CreateScene(s, name, ids, id, f).0
    case DoRenameScene(id, name) => RenameScene(s, id, name, f).0
    case DoUpdateScene(id, ids, order) => UpdateScenePositions(s, id, ids, order, f).0
    case DoDeleteScene(id) => DeleteScene(s, id, f).0
    case DoPreviewCamera(cid) => SetPreviewCamera(s, cid).0
    case DoPreviewScene(sid) => SetPreviewScene(s, sid).0
    case DoEnsureHidden => EnsureHidden(s, f)
    case DoCut(order) => Cut(s, order, f).0
    case DoSync(streams, now) => SyncOnce(s, streams, now, f)
  }

  /** A run: commands one after the other, each with the calls that fail during it. */
  ghost function Run(s: Sys, trace: seq<(Command, Faults)>): Sys {
    if trace == [] then s
    else
      var (c, f) := trace[|trace| - 1];
      Exec(Run(s, trace[..|trace| - 1]), c, f)
  }

  ghost predicate LegalRun(s: Sys, trace: seq<(Command, Faults)>) {
    trace == [] ||
    (var init := trace[..|trace| - 1];
     LegalRun(s, init) && Legal(Run(s, init), trace[|trace| - 1].0, trace[|trace| - 1].1))
  }

  // ----- Start -----

  /** New: the definitions that load, with every runtime field reset; the reserved position is skipped.
      A file that does not load counts as empty. */
  ghost function Start(base: string, positions: seq<PositionDef>, scenes: seq<SceneDef>): Mem {
    Mem(base, map[], map[], false, LoadPositions(positions), LoadScenes(scenes), "",
        LiveState(KindNone, "", KindNone, ""), false, Store(positions, false), Store(scenes, false))
  }

  function LoadPositions(defs: seq<PositionDef>): map<string, Position> {
    if defs == [] then map[]
    else
      var ps := LoadPositions(defs[..|defs| - 1]);
      var d := defs[|defs| - 1];
      if d.id == SIMPLE then ps else ps[d.id := Position(d.name, "", false)]
  }

  function LoadScenes(defs: seq<SceneDef>): map<string, Scene> {
    if defs == [] then map[]
    else
      var d := defs[|defs| - 1];
      LoadScenes(defs[..|defs| - 1])[d.id := Scene(d.name, d.positionIDs)]
  }
}
