/** What is on air over interleavings. Between its sections a cut, or the update of a live scene, collects the positions
    and then sets one input after the other, while other threads do the same. Exactly which steps leave an input on that
    the live selection does not show once nobody is at it. */
module CutOverlap {
  import opened Options
  import opened Model
  import opened Sections
  import opened Invariants
  import I = Interleaved

  /** A thread that applies visibility: the ids to enable, and those still to be set once they have been collected. */
  datatype Apply = Apply(enable: set<string>, todo: Option<set<string>>)

  /** The interleaved model with the inputs that are enabled and the threads that apply. */
  datatype Air = Air(st: I.State, on: set<string>, busy: map<nat, Apply>)

  datatype Step =
    | Take(a: I.Action)              // a section
    | Collect                        // applyExclusiveVisibility reads the positions
    | Visit(id: string, ok: bool)    // and sets one input; an error ends the operation
    | Finish                         // the update of a live scene returns
    | SwitchOff(id: string)          // a bump, an unassignment, an offline camera or a removal

  /** The steps of a cut once its visibility is applied. */
  predicate AfterApply(a: I.Action) {
    a.CutReadAudio? || a.CutAudioFinish? || a.CutAudioFails? || a.CutCameraFinish? || a.CutSceneFinish?
  }

  ghost predicate Enabled(x: Air, t: nat, s: Step) {
    match s
    case Take(a) =>
      && I.Enabled(x.st, t, a)
      && (if AfterApply(a) then t in x.busy && x.busy[t].todo == Some({})
          else t !in x.busy || (a.Abort? && x.busy[t].todo.None? && I.At(x.st, t).CuttingCamera?))
    case Collect => t in x.busy && x.busy[t].todo.None?
    case Visit(id, ok) =>
      && t in x.busy && x.busy[t].todo.Some? && id in x.busy[t].todo.value
      && (!ok ==> I.At(x.st, t).Idle? || I.Enabled(x.st, t, I.Abort))
    case Finish => t in x.busy && x.busy[t].todo == Some({}) && I.At(x.st, t).Idle?
    case SwitchOff(_) => true
  }

  function IdSet(ids: seq<string>): set<string> { set id | id in ids }

  /** The update of the live scene is accepted as far as its save. */
  predicate UpdatesLive(m: Mem, id: string, ids: seq<string>) {
    id in m.scenes && ValidateSceneIDs(m, Dedupe(ids)).Ok? && m.live.liveKind == KindScene && m.live.liveID == id
  }

  ghost function NextBusy(x: Air, t: nat, a: I.Action): map<nat, Apply>
    requires I.Enabled(x.st, t, a)
  {
    match a
    case CutPlan =>
      (match PlanCut(x.st.mem)
       case ShowCamera(_) => x.busy[t := Apply({SIMPLE}, None)]
       case ShowScene(_, enable) => x.busy[t := Apply(IdSet(enable), None)]
       case _ => x.busy)
    case UpdateScene(id, ids, saveOk) =>
      if saveOk && UpdatesLive(x.st.mem, id, ids) then x.busy[t := Apply(IdSet(Dedupe(ids)), None)] else x.busy
    case CutCameraFinish => x.busy - {t}
    case CutSceneFinish => x.busy - {t}
    case Abort => x.busy - {t}
    case _ => x.busy
  }

  ghost function Do(x: Air, t: nat, s: Step): Air
    requires Enabled(x, t, s)
  {
    match s
    case Take(a) => Air(I.Do(x.st, t, a), x.on, NextBusy(x, t, a))
    case Collect => x.(busy := x.busy[t := x.busy[t].(todo := Some(x.st.mem.positions.Keys))])
    case Visit(id, ok) =>
      if !ok then x.(st := if I.At(x.st, t).Idle? then x.st else I.Do(x.st, t, I.Abort), busy := x.busy - {t})
      else x.(on := if id in x.busy[t].enable then x.on + {id} else x.on - {id},
              busy := x.busy[t := x.busy[t].(todo := Some(x.busy[t].todo.value - {id}))])
    case Finish => x.(busy := x.busy - {t})
    case SwitchOff(id) => x.(on := x.on - {id})
  }

  ghost function Run(x: Air, trace: seq<(nat, Step)>): Air {
    if trace == [] then x
    else
      var before := Run(x, trace[..|trace| - 1]);
      var (t, s) := trace[|trace| - 1];
      if Enabled(before, t, s) then Do(before, t, s) else before
  }

  // ----- On air -----

  function Listed(m: Mem, sid: string): set<string> {
    if sid in m.scenes then IdSet(m.scenes[sid].positionIDs) else {}
  }

  /** The inputs that the live selection shows. */
  function Shown(m: Mem): set<string> {
    match m.live.liveKind
    case KindNone => {}
    case KindCamera => {SIMPLE}
    case KindScene => Listed(m, m.live.liveID)
  }

  /** When nobody applies visibility, only what the live selection shows is on; and whoever has collected the positions
      finds no input on but those it wants and those it has still to set. */
  ghost predicate Settled(x: Air) {
    && (x.busy == map[] ==> x.on <= Shown(x.st.mem))
    && (forall t :: t in x.busy && x.busy[t].todo.Some? ==> x.on <= x.busy[t].enable + x.busy[t].todo.value)
  }

  predicate Last(x: Air, t: nat) { x.busy.Keys <= {t} }

  /** The guards of the steps that break this. */
  ghost predicate Disturbs(x: Air, t: nat, s: Step)
    requires Enabled(x, t, s)
  {
    match s
    case Take(a) =>
      (match a
       // the last to commit, and its selection does not show what is on by now
       case CutCameraFinish => Last(x, t) && !(x.on <= {SIMPLE})
       case CutSceneFinish => Last(x, t) && !(x.on <= Listed(x.st.mem, I.At(x.st, t).sid))
       // the last to give up before it has set anything
       case Abort => t in x.busy && Last(x, t) && !(x.on <= Shown(x.st.mem))
       // a list whose save fails is live in memory and not applied
       case UpdateScene(id, ids, saveOk) =>
         !saveOk && x.busy == map[] && UpdatesLive(x.st.mem, id, ids) && !(x.on <= IdSet(Dedupe(ids)))
       case _ => false)
    // an input is on that no position has
    case Collect => !(x.on <= x.busy[t].enable + x.st.mem.positions.Keys)
    // switched on behind the back of another thread that has passed it, or given up half-way by the last
    case Visit(id, ok) =>
      if ok then id in x.busy[t].enable && exists u :: u in x.busy && u != t && Passed(x.busy[u], id)
      else Last(x, t) && !(x.on <= Shown(x.st.mem))
    case Finish => Last(x, t) && !(x.on <= Shown(x.st.mem))
    case SwitchOff(_) => false
  }

  /** The thread has collected the positions, does not want this input and will not set it any more. */
  predicate Passed(b: Apply, id: string) {
    b.todo.Some? && id !in b.enable && id !in b.todo.value
  }

  // ----- What sections do to the live selection -----

  predicate SameShow(m: Mem, m': Mem) {
    m'.live.liveKind == m.live.liveKind && m'.live.liveID == m.live.liveID && Shown(m) <= Shown(m')
  }

  /** What is live stays, and so does every scene's list. */
  predicate SameScenes(m: Mem, m': Mem) {
    && m'.live.liveKind == m.live.liveKind && m'.live.liveID == m.live.liveID
    && (forall sid :: sid in m.scenes ==> sid in m'.scenes && m'.scenes[sid].positionIDs == m.scenes[sid].positionIDs)
  }

  lemma SameScenesShow(m: Mem, m': Mem)
    requires SameScenes(m, m')
    ensures SameShow(m, m') && forall sid :: Listed(m, sid) <= Listed(m', sid)
  {}

  lemma CreateShow(m: Mem, id: string, name: string, ok: bool)
    ensures SameScenes(m, CreateCommit(m, id, name, ok).0)
  {
    hide PositionDefs, PositionNameIsTaken;
  }

  lemma RenameShow(m: Mem, id: string, name: string, ok: bool)
    ensures SameScenes(m, RenameSection(m, id, name, ok).0) && SameScenes(m, DeleteCommit(m, id, ok).0)
  {
    hide PositionDefs, PositionNameIsTaken;
  }

  lemma AssignShow(m: Mem, id: string, other: string, hits: set<string>)
    ensures SameScenes(m, AssignCommit(m, id, other, hits).0) && SameScenes(m, UnassignCommit(m, id).0)
    ensures SameScenes(m, AudioCommit(m, id, other).0) && SameScenes(m, AudioInternalCommit(m, id, other))
  {
    hide Reflag;
  }

  lemma NewSceneShow(m: Mem, id: string, name: string, ids: seq<string>, ok: bool)
    requires id !in m.scenes
    ensures SameScenes(m, CreateSceneSection(m, id, name, ids, ok).0)
  {
    hide SceneDefs, ValidateSceneIDs;
  }

  lemma RenameSceneShow(m: Mem, id: string, name: string, ok: bool)
    ensures SameScenes(m, RenameSceneSection(m, id, name, ok).0)
  {
    hide SceneDefs, SceneNameIsTaken;
  }

  lemma DropSceneShow(m: Mem, id: string, ok: bool)
    ensures SameShow(m, DeleteSceneSection(m, id, ok).0)
  {
    hide SceneDefs;
  }

  lemma PreviewShow(m: Mem, id: string)
    ensures SameScenes(m, PreviewCameraSection(m, id).0) && SameScenes(m, PreviewSceneSection(m, id).0)
  {}

  /** A new list shows at once in the live scene, saved or not. */
  lemma UpdateSceneShow(m: Mem, id: string, ids: seq<string>, ok: bool)
    ensures var m' := UpdateSceneSection(m, id, Dedupe(ids), ok).0;
      && m'.live == m.live
      && (if UpdatesLive(m, id, ids) then Shown(m') == IdSet(Dedupe(ids)) else Shown(m') == Shown(m))
  {
    hide SceneDefs, ValidateSceneIDs, Dedupe;
  }

  lemma CutAndSyncShow(m: Mem, id: string, seen: set<string>, now: int, hits: set<string>)
    ensures Shown(CutCameraCommit(m, id)) == {SIMPLE} && Shown(CutSceneCommit(m, id)) == Listed(m, id)
    ensures SameScenes(m, SyncMark(m, seen, now, hits)) && SameScenes(m, SyncFailed(m)) &&
      SameScenes(m, SyncPrune(m, seen))
    ensures SameScenes(m, HiddenCommit(m))
  {
    hide MarkedCameras, MarkedOffline;
  }

  /** The steps that change a list, drop a scene or put another selection live. */
  predicate Reselects(a: I.Action) { a.CutCameraFinish? || a.CutSceneFinish? || a.UpdateScene? || a.DropScene? }

  lemma PositionStepScenes(st: I.State, t: nat, a: I.Action)
    requires I.Enabled(st, t, a) && I.OnPositions(a)
    ensures SameScenes(st.mem, I.NextMem(st, t, a))
  {
    var l, m := I.At(st, t), st.mem;
    hide CreateCommit, RenameSection, DeleteCommit, AssignCommit, UnassignCommit, AudioCommit, FirstHits, SameScenes;
    hide PositionNameIsTaken;
    match a
    case CreateFinish(saveOk) => CreateShow(m, l.id, l.name, saveOk);
    case Rename(pid, name, saveOk) => RenameShow(m, pid, name, saveOk);
    case DeleteFinish(saveOk) => RenameShow(m, l.pid, "", saveOk);
    case AssignFinish(hits) => AssignShow(m, l.pid, l.cid, hits);
    case UnassignFinish => AssignShow(m, l.pid, "", {});
    case AudioFinish => AssignShow(m, l.pid, l.prev, {});
  }

  lemma SceneStepScenes(st: I.State, t: nat, a: I.Action)
    requires I.Enabled(st, t, a) && I.OnScenes(a) && !Reselects(a)
    ensures SameScenes(st.mem, I.NextMem(st, t, a))
  {
    var m := st.mem;
    hide CreateSceneSection, RenameSceneSection, PreviewCameraSection, PreviewSceneSection, Dedupe, SameScenes;
    match a
    case NewScene(id, name, ids, saveOk) => NewSceneShow(m, id, name, Dedupe(ids), saveOk);
    case RenameScene(id, name, saveOk) => RenameSceneShow(m, id, name, saveOk);
    case PreviewCamera(cid) => PreviewShow(m, cid);
    case PreviewScene(sid) => PreviewShow(m, sid);
  }

  lemma OtherStepScenes(st: I.State, t: nat, a: I.Action)
    requires I.Enabled(st, t, a) && I.OnAirOrIdle(a) && !Reselects(a)
    ensures SameScenes(st.mem, I.NextMem(st, t, a))
  {
    var l, m := I.At(st, t), st.mem;
    assert SameScenes(m, m);
    hide AudioInternalCommit, SyncMark, SyncPrune, SyncFailed, HiddenCommit, FirstHits, Gone, PlanCut;
    hide PositionNameIsTaken, SameScenes;
    match a
    case HideFinish => CutAndSyncShow(m, "", {}, 0, {});
    case CutAudioFinish => AssignShow(m, SIMPLE, l.prev, {});
    case Sync(seen, now, hits) => CutAndSyncShow(m, "", seen, now, hits);
    case SyncFails => CutAndSyncShow(m, "", {}, 0, {});
    case PruneFinish => CutAndSyncShow(m, "", l.ids, 0, {});
    case _ =>
  }

  lemma StepScenes(st: I.State, t: nat, a: I.Action)
    requires I.Enabled(st, t, a) && !Reselects(a)
    ensures SameScenes(st.mem, I.NextMem(st, t, a))
  {
    hide I.Enabled, I.NextMem, SameScenes;
    if I.OnPositions(a) {
      PositionStepScenes(st, t, a);
    } else if I.OnScenes(a) {
      SceneStepScenes(st, t, a);
    } else {
      OtherStepScenes(st, t, a);
    }
  }

  lemma StepShow(st: I.State, t: nat, a: I.Action)
    requires I.Enabled(st, t, a)
    ensures !Reselects(a) || a.DropScene? ==> SameShow(st.mem, I.NextMem(st, t, a))
    ensures a.CutCameraFinish? ==> Shown(I.NextMem(st, t, a)) == {SIMPLE}
    ensures a.CutSceneFinish? ==> Shown(I.NextMem(st, t, a)) == Listed(st.mem, I.At(st, t).sid)
    ensures a.UpdateScene? && UpdatesLive(st.mem, a.id, a.ids) ==> Shown(I.NextMem(st, t, a)) == IdSet(Dedupe(a.ids))
    ensures a.UpdateScene? && !UpdatesLive(st.mem, a.id, a.ids) ==> Shown(I.NextMem(st, t, a)) == Shown(st.mem)
  {
    if a.UpdateScene? {
      UpdateSceneShow(st.mem, a.id, a.ids, a.saveOk);
      hide UpdateSceneSection, Shown, UpdatesLive, Dedupe;
    } else if a.CutCameraFinish? {
      CutAndSyncShow(st.mem, I.At(st, t).cid, {}, 0, {});
      hide CutCameraCommit, Shown;
    } else if a.CutSceneFinish? {
      CutAndSyncShow(st.mem, I.At(st, t).sid, {}, 0, {});
      hide CutSceneCommit, Shown;
    } else if a.DropScene? {
      DropSceneShow(st.mem, a.id, a.saveOk);
      hide DeleteSceneSection, Shown, SameShow;
    } else {
      hide I.Enabled, I.NextMem, SameShow, SameScenes, Shown;
      StepScenes(st, t, a);
      SameScenesShow(st.mem, I.NextMem(st, t, a));
    }
  }

  // ----- Exactly which steps disturb -----

  lemma TakeSettled(x: Air, t: nat, a: I.Action)
    requires Settled(x) && Enabled(x, t, Take(a))
    ensures Settled(Do(x, t, Take(a))) <==> !Disturbs(x, t, Take(a))
  {
    StepShow(x.st, t, a);
    BusyAfter(x, t, a);
    assert I.Do(x.st, t, a).mem == I.NextMem(x.st, t, a);
    hide I.Do, I.NextMem, I.Enabled, Shown, Dedupe, ValidateSceneIDs;
  }

  /** Who applies after a section. */
  lemma BusyAfter(x: Air, t: nat, a: I.Action)
    requires Enabled(x, t, Take(a))
    ensures var busy := NextBusy(x, t, a);
      && (forall u :: u in busy && u != t ==> u in x.busy && busy[u] == x.busy[u])
      && (forall u :: u in x.busy && u != t ==> u in busy)
      && (t in busy && !(t in x.busy && busy[t] == x.busy[t]) ==> busy[t].todo.None?)
      && (a.CutCameraFinish? || a.CutSceneFinish? || a.Abort? ==> t !in busy)
      && (a.UpdateScene? ==> t !in x.busy)
      && (a.UpdateScene? ==> (t in busy <==> a.saveOk && UpdatesLive(x.st.mem, a.id, a.ids)))
      && (t in x.busy && !a.CutCameraFinish? && !a.CutSceneFinish? && !a.Abort? ==> t in busy)
  {
    hide I.Enabled, PlanCut, Dedupe, UpdatesLive;
  }

  lemma LastLeaves(busy: map<nat, Apply>, t: nat)
    ensures busy - {t} == map[] <==> busy.Keys <= {t}
  {
    assert (busy - {t}).Keys == busy.Keys - {t};
    if busy.Keys <= {t} { assert (busy - {t}).Keys == {}; }
    if u :| u in busy && u != t { assert u in busy - {t}; }
  }

  lemma FailedVisitSettled(x: Air, t: nat, id: string)
    requires Settled(x) && Enabled(x, t, Visit(id, false))
    ensures Settled(Do(x, t, Visit(id, false))) <==> !Disturbs(x, t, Visit(id, false))
  {
    LastLeaves(x.busy, t);
    if !I.At(x.st, t).Idle? { assert I.Do(x.st, t, I.Abort).mem == x.st.mem; }
    hide I.Do, I.Enabled, Shown;
    var x' := Do(x, t, Visit(id, false));
    assert x'.busy == x.busy - {t} && x'.on == x.on && x'.st.mem == x.st.mem;
  }

  lemma VisitSettled(x: Air, t: nat, id: string)
    requires Settled(x) && Enabled(x, t, Visit(id, true))
    ensures Settled(Do(x, t, Visit(id, true))) <==> !Disturbs(x, t, Visit(id, true))
  {
    hide I.Do, I.Enabled, Shown;
    var x' := Do(x, t, Visit(id, true));
    assert t in x'.busy;
    if u :| u in x.busy && u != t && Passed(x.busy[u], id) {
      assert x'.busy[u] == x.busy[u];
    }
  }

  lemma CollectSettled(x: Air, t: nat)
    requires Settled(x) && Enabled(x, t, Collect)
    ensures Settled(Do(x, t, Collect)) <==> !Disturbs(x, t, Collect)
  {
    hide Shown, I.Enabled;
    var x' := Do(x, t, Collect);
    assert t in x'.busy && x'.busy[t].todo == Some(x.st.mem.positions.Keys);
  }

  /** A step leaves what is on air settled exactly when it is none of the disturbing ones. */
  lemma StepSettled(x: Air, t: nat, s: Step)
    requires Settled(x) && Enabled(x, t, s)
    ensures Settled(Do(x, t, s)) <==> !Disturbs(x, t, s)
  {
    match s
    case Take(a) => TakeSettled(x, t, a);
    case Visit(id, ok) => if ok { VisitSettled(x, t, id); } else { FailedVisitSettled(x, t, id); }
    case Collect => CollectSettled(x, t);
    case Finish =>
      LastLeaves(x.busy, t);
      hide Shown, I.Enabled;
    case SwitchOff(_) => hide Shown, I.Enabled;
  }

  ghost predicate NeverDisturbed(x: Air, trace: seq<(nat, Step)>) {
    trace == [] ||
    (var before := Run(x, trace[..|trace| - 1]);
     var (t, s) := trace[|trace| - 1];
     NeverDisturbed(x, trace[..|trace| - 1]) && (Enabled(before, t, s) ==> !Disturbs(before, t, s)))
  }

  /** In every interleaving: all along, whenever nobody applies visibility only what the live selection shows is on, and
      whoever applies it finds nothing on but what it wants or has still to set, exactly when no step disturbs. */
  lemma {:induction false} SettledExactlyWhenUndisturbed(x: Air, trace: seq<(nat, Step)>)
    requires Settled(x)
    ensures NeverDisturbed(x, trace) <==> forall n :: 0 <= n <= |trace| ==> Settled(Run(x, trace[..n]))
  {
    hide Settled, Enabled, Do, Disturbs;
    if trace == [] {
      assert trace[..0] == [];
    } else {
      var k := |trace| - 1;
      var init := trace[..k];
      SettledExactlyWhenUndisturbed(x, init);
      assert forall n :: 0 <= n <= k ==> trace[..n] == init[..n];
      assert init[..k] == init && trace[..k + 1] == trace;
      var before := Run(x, init);
      var (t, s) := trace[k];
      if Settled(before) && Enabled(before, t, s) { StepSettled(before, t, s); }
      assert NeverDisturbed(x, trace) <==>
        (forall n :: 0 <= n <= k ==> Settled(Run(x, trace[..n]))) && Settled(Run(x, trace));
    }
  }

  // ----- What a caller can see to -----

  /** Cuts, updates and deletes of scenes, and the commits of deletes of positions wait while somebody applies
      visibility; the calls that apply it succeed,
        and so do the saves of updates and the removals of deletes. Everything
      else may overlap and fail as it likes. */
  ghost predicate Careful(x: Air, t: nat, s: Step) {
    match s
    case Take(a) =>
      && (a.CutPlan? || a.UpdateScene? || a.DropScene? || a.DeleteFinish? ==> x.busy == map[])
      && (a.UpdateScene? ==> a.saveOk)
      && (a.DeleteFinish? && I.At(x.st, t).DeletedInput? ==> I.At(x.st, t).pid !in x.on)
    case Visit(_, ok) => ok
    case _ => true
  }

  ghost predicate AllCareful(x: Air, trace: seq<(nat, Step)>) {
    trace == [] ||
    (var before := Run(x, trace[..|trace| - 1]);
     var (t, s) := trace[|trace| - 1];
     AllCareful(x, trace[..|trace| - 1]) && (Enabled(before, t, s) ==> Careful(before, t, s)))
  }

  /** What a thread applies is what it is about to show, and until it has collected the positions nothing has
      changed. */
  ghost predicate Aims(x: Air, t: nat, b: Apply) {
    match I.At(x.st, t)
    case CuttingScene(sid) => b.enable <= Listed(x.st.mem, sid) && (b.todo.None? ==> x.on <= Shown(x.st.mem))
    case CuttingCamera(_) => b.enable == {SIMPLE} && (b.todo.None? ==> x.on <= Shown(x.st.mem))
    case CuttingAudio(_, _) => b.enable == {SIMPLE} && b.todo.Some?
    case CameraOnAir(_) => b.enable == {SIMPLE} && b.todo.Some?
    case Idle => b.enable <= Shown(x.st.mem)
    case _ => false
  }

  /** One thread at most applies, only inputs of positions are on, and it visits only those. */
  ghost predicate Orderly(x: Air) {
    && I.Safe(x.st)
    && x.on <= x.st.mem.positions.Keys
    && (forall t, u :: t in x.busy && u in x.busy ==> t == u)
    && (forall t :: t in x.busy && x.busy[t].todo.Some? ==> x.busy[t].todo.value <= x.st.mem.positions.Keys)
    && (forall t :: t in x.busy ==> Aims(x, t, x.busy[t]))
  }

  lemma OnlyOne(x: Air, t: nat)
    requires Orderly(x) && t in x.busy
    ensures x.busy.Keys == {t} && Last(x, t)
  {
    hide Aims, I.Safe;
  }

  lemma CarefulIsUndisturbed(x: Air, t: nat, s: Step)
    requires Orderly(x) && Settled(x) && Enabled(x, t, s) && Careful(x, t, s)
    ensures !Disturbs(x, t, s)
  {
    if t in x.busy {
      OnlyOne(x, t);
      assert Aims(x, t, x.busy[t]);
    }
    hide I.Safe, Shown, Listed, UpdatesLive, PlanCut, Dedupe;
  }

  /** Which positions a section takes away. */
  lemma KeysAfter(st: I.State, t: nat, a: I.Action)
    requires I.Safe(st) && I.Enabled(st, t, a)
    ensures forall id :: id in st.mem.positions && id !in I.NextMem(st, t, a).positions ==>
      a.DeleteFinish? && I.At(st, t).DeletedInput? && id == I.At(st, t).pid
  {
    I.StepKeysExactly(st, t, a);
    assert a.CreateFinish? ==> I.LocalOk(st.mem, I.At(st, t));
    hide I.Safe, I.NextMem, PositionNameIsTaken, FirstHits, Gone, PlanCut;
  }

  lemma TakeKeepsKnown(x: Air, t: nat, a: I.Action)
    requires Orderly(x) && Enabled(x, t, Take(a)) && Careful(x, t, Take(a))
    ensures var x' := Do(x, t, Take(a));
      && x'.on <= x'.st.mem.positions.Keys
      && (forall u :: u in x'.busy && x'.busy[u].todo.Some? ==> x'.busy[u].todo.value <= x'.st.mem.positions.Keys)
      && (forall u, v :: u in x'.busy && v in x'.busy ==> u == v)
  {
    KeysAfter(x.st, t, a);
    BusyAfter(x, t, a);
    assert I.Do(x.st, t, a).mem == I.NextMem(x.st, t, a);
    BusyGrows(x, t, a);
    hide I.Do, I.NextMem, I.Enabled, I.Safe, NextBusy, Aims;
  }

  lemma BusyGrows(x: Air, t: nat, a: I.Action)
    requires Enabled(x, t, Take(a)) && Careful(x, t, Take(a))
    ensures t in NextBusy(x, t, a) ==> t in x.busy || x.busy == map[]
  {
    hide I.Enabled, PlanCut, Dedupe, UpdatesLive;
  }

  /** A thread's aim outlasts whatever keeps the lists and what is live and switches nothing on. */
  lemma AimsOutlast(x: Air, x': Air, u: nat, b: Apply)
    requires Aims(x, u, b) && I.At(x'.st, u) == I.At(x.st, u) && x'.on <= x.on && SameScenes(x.st.mem, x'.st.mem)
    ensures Aims(x', u, b)
  {
    SameScenesShow(x.st.mem, x'.st.mem);
    hide Shown, Listed, SameScenes;
  }

  /** The plan of a cut, and an accepted update of the live scene, aim at what they will show. */
  lemma NewAim(x: Air, t: nat, a: I.Action)
    requires Enabled(x, t, Take(a)) && Careful(x, t, Take(a)) && Settled(x) && x.busy == map[]
    requires t in NextBusy(x, t, a)
    ensures Aims(Do(x, t, Take(a)), t, NextBusy(x, t, a)[t])
  {
    StepShow(x.st, t, a);
    assert a.CutPlan? || a.UpdateScene? by { hide PlanCut, Dedupe, UpdatesLive; }
    if a.CutPlan? {
      PlanAims(x.st.mem);
      hide PlanCut, Shown, Listed;
    } else {
      assert I.At(I.Do(x.st, t, a), t) == I.Idle;
      hide Shown, Dedupe, UpdatesLive, I.NextMem;
    }
  }

  lemma PlanAims(m: Mem)
    ensures PlanCut(m).ShowScene? ==> IdSet(PlanCut(m).enable) <= Listed(m, PlanCut(m).sid)
  {
    if PlanCut(m).ShowScene? { ExistingIsFilter(m, m.scenes[PlanCut(m).sid].positionIDs); }
    hide Existing, HoldsOffline;
  }

  /** The steps of a camera cut between its visibility and its commit keep its aim. */
  lemma SameAim(x: Air, t: nat, a: I.Action)
    requires Enabled(x, t, Take(a)) && t in x.busy && Aims(x, t, x.busy[t])
    requires a.CutReadAudio? || a.CutAudioFinish? || a.CutAudioFails?
    ensures NextBusy(x, t, a) == x.busy && Aims(Do(x, t, Take(a)), t, x.busy[t])
  {
    hide Shown, Listed, AudioInternalCommit;
  }

  lemma TakeKeepsAims(x: Air, t: nat, a: I.Action)
    requires Orderly(x) && Settled(x) && Enabled(x, t, Take(a)) && Careful(x, t, Take(a))
    ensures var x' := Do(x, t, Take(a)); forall u :: u in x'.busy ==> Aims(x', u, x'.busy[u])
  {
    var x' := Do(x, t, Take(a));
    BusyAfter(x, t, a);
    BusyGrows(x, t, a);
    forall u | u in x'.busy ensures Aims(x', u, x'.busy[u]) {
      if u == t && t in x.busy {
        BusyTakes(x, t, a);
        SameAim(x, t, a);
      } else if u == t {
        NewAim(x, t, a);
      } else {
        OnlyOne(x, u);
        OthersKeepScenes(x, t, a, u);
        assert I.At(x'.st, u) == I.At(x.st, u);
        AimsOutlast(x, x', u, x.busy[u]);
      }
    }
  }

  /** A thread that applies takes no other sections. */
  lemma BusyTakes(x: Air, t: nat, a: I.Action)
    requires Enabled(x, t, Take(a)) && t in x.busy && t in NextBusy(x, t, a)
    ensures a.CutReadAudio? || a.CutAudioFinish? || a.CutAudioFails?
  {
    hide I.Enabled;
  }

  lemma OthersKeepScenes(x: Air, t: nat, a: I.Action, u: nat)
    requires Enabled(x, t, Take(a)) && Careful(x, t, Take(a)) && u in x.busy && x.busy.Keys == {u} && u != t
    ensures SameScenes(x.st.mem, Do(x, t, Take(a)).st.mem)
  {
    assert !Reselects(a) by { hide I.Enabled; }
    StepScenes(x.st, t, a);
    assert I.Do(x.st, t, a).mem == I.NextMem(x.st, t, a);
    hide I.NextMem, I.Enabled, SameScenes, I.Do, NextBusy;
  }

  lemma VisitKeepsOrder(x: Air, t: nat, id: string)
    requires Orderly(x) && Enabled(x, t, Visit(id, true))
    ensures Orderly(Do(x, t, Visit(id, true)))
  {
    OnlyOne(x, t);
    assert Aims(x, t, x.busy[t]);
    hide I.Safe, Shown, Listed, I.Enabled;
  }

  lemma CollectKeepsOrder(x: Air, t: nat)
    requires Orderly(x) && Enabled(x, t, Collect)
    ensures Orderly(Do(x, t, Collect))
  {
    OnlyOne(x, t);
    assert Aims(x, t, x.busy[t]);
    hide I.Safe, Shown, Listed, I.Enabled;
  }

  lemma SwitchOffKeepsOrder(x: Air, t: nat, id: string)
    requires Orderly(x)
    ensures Orderly(Do(x, t, SwitchOff(id)))
  {
    var x' := Do(x, t, SwitchOff(id));
    forall u | u in x'.busy ensures Aims(x', u, x'.busy[u]) {
      assert Aims(x, u, x.busy[u]);
      hide Shown, Listed;
    }
    hide Aims, I.Safe;
  }

  lemma CarefulStep(x: Air, t: nat, s: Step)
    requires Orderly(x) && Settled(x) && Enabled(x, t, s) && Careful(x, t, s)
    ensures Orderly(Do(x, t, s)) && Settled(Do(x, t, s)) && !Disturbs(x, t, s)
  {
    CarefulIsUndisturbed(x, t, s);
    StepSettled(x, t, s);
    match s
    case Take(a) =>
      TakeKeepsKnown(x, t, a);
      TakeKeepsAims(x, t, a);
      I.StepKeepsSafe(x.st, t, a);
      hide I.Safe, I.Do, I.Enabled, Aims, Settled, Disturbs, NextBusy;
    case Collect =>
      CollectKeepsOrder(x, t);
      hide Orderly, Settled, Disturbs;
    case Visit(id, _) =>
      VisitKeepsOrder(x, t, id);
      hide Orderly, Settled, Disturbs;
    case Finish =>
      OnlyOne(x, t);
      hide I.Safe, Aims, Settled, Disturbs, I.Enabled;
    case SwitchOff(id) =>
      SwitchOffKeepsOrder(x, t, id);
      hide Orderly, Settled, Disturbs;
  }

  /** So in every such run, whatever else overlaps and fails, only what the live selection shows is on whenever nobody
      applies visibility. */
  lemma {:induction false} CarefulRunsStaySettled(x: Air, trace: seq<(nat, Step)>)
    requires Orderly(x) && Settled(x) && AllCareful(x, trace)
    ensures var end := Run(x, trace);
      Orderly(end) && Settled(end) && NeverDisturbed(x, trace) && (end.busy == map[] ==> end.on <= Shown(end.st.mem))
  {
    if trace != [] {
      var before := Run(x, trace[..|trace| - 1]);
      var (t, s) := trace[|trace| - 1];
      CarefulRunsStaySettled(x, trace[..|trace| - 1]);
      assert Settled(before);
      hide Orderly, Enabled, Do, Disturbs, Careful;
      if Enabled(before, t, s) { CarefulStep(before, t, s); }
    }
  }

  /** Where such runs start: a safe state in which nobody applies visibility and nothing is on. */
  lemma StartIsOrderly(st: I.State)
    requires I.Safe(st)
    ensures Orderly(Air(st, {}, map[])) && Settled(Air(st, {}, map[]))
  {
    hide I.Safe;
  }
}
