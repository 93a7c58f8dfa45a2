/** One sync, and New, item by item; and where every known camera is pulled from. */
module SyncContracts {
  import opened Options
  import opened Model
  import Names
  import opened Obs
  import opened Sections
  import opened Invariants
  import opened Sequential
  import opened SequentialSafety
  import opened PositionContracts
  import OnAir

  // ----- Source URLs -----

  /** The base without its trailing slashes, told without saying how they are removed. */
  ghost predicate Trimmed(base: string, t: string) {
    && (t == "" || t[|t| - 1] != '/')
    && exists z :: base == t + z && forall k :: 0 <= k < |z| ==> z[k] == '/'
  }

  lemma NoLonger(base: string, t: string, z: string, u: string, y: string)
    requires base == t + z && base == u + y && forall k :: 0 <= k < |z| ==> z[k] == '/'
    requires u == "" || u[|u| - 1] != '/'
    ensures |u| <= |t|
  {
    assert forall k :: |t| <= k < |base| ==> base[k] == z[k - |t|];
    assert u != "" ==> base[|u| - 1] == u[|u| - 1];
  }

  lemma TrimmedUnique(base: string, t: string, u: string)
    requires Trimmed(base, t) && Trimmed(base, u)
    ensures t == u
  {
    var z :| base == t + z && forall k :: 0 <= k < |z| ==> z[k] == '/';
    var y :| base == u + y && forall k :: 0 <= k < |y| ==> y[k] == '/';
    NoLonger(base, t, z, u, y);
    NoLonger(base, u, y, t, z);
    assert base[..|t|] == t && base[..|u|] == u;
  }

  /** base, one slash, id. */
  ghost predicate PulledFrom(base: string, id: string, url: string) {
    exists t :: Trimmed(base, t) && url == t + "/" + id
  }

  lemma SourceURLExact(base: string, id: string)
    ensures PulledFrom(base, id, Names.SourceURL(base, id))
    ensures forall url :: PulledFrom(base, id, url) ==> url == Names.SourceURL(base, id)
  {
    var t := Names.TrimSlashes(base);
    Names.TrimSlashesExact(base);
    assert base == t + base[|t|..];
    assert Trimmed(base, t);
    assert Names.SourceURL(base, id) == t + "/" + id;
    forall url | PulledFrom(base, id, url) ensures url == Names.SourceURL(base, id) {
      var u :| Trimmed(base, u) && url == u + "/" + id;
      TrimmedUnique(base, t, u);
    }
  }

  /** After every sequential run every known camera is pulled from the trimmed base, a slash and its name; and with OBS
      answering, the input of an occupied position points there. */
  lemma EveryCameraIsPulledFromBase(s: Sys, trace: seq<(Command, Faults)>)
    requires Good(s.mem) && LegalRun(s, trace)
    ensures var m := Run(s, trace).mem; forall id :: id in m.cameras ==> PulledFrom(m.base, id, m.cameras[id].sourceURL)
  {
    EveryRunIsGood(s, trace);
    var m := Run(s, trace).mem;
    assert CamerasSourced(m.base, m.cameras);
    forall id | id in m.cameras ensures PulledFrom(m.base, id, m.cameras[id].sourceURL) {
      SourceURLExact(m.base, id);
    }
  }

  lemma EveryInputPointsAtItsCamera(s: Sys, trace: seq<(Command, Faults)>, id: string)
    requires OnAir.Agrees(s) && LegalRun(s, trace) && forall i :: 0 <= i < |trace| ==> OnAir.ObsWorks(trace[i].1)
    requires var m := Run(s, trace).mem; id in m.positions && m.positions[id].cameraID != ""
    ensures var s' := Run(s, trace);
      id in s'.obs.inputs && PulledFrom(s'.mem.base, s'.mem.positions[id].cameraID, s'.obs.inputs[id])
  {
    OnAir.EveryHealthyRunAgrees(s, trace);
    var s' := Run(s, trace);
    SourceURLExact(s'.mem.base, s'.mem.positions[id].cameraID);
    assert OnAir.InputsExist(s'.mem.positions, s'.obs) && OnAir.SourcesAgree(s'.mem.base, s'.mem.positions, s'.obs);
    hide Run, Good;
  }

  // ----- One sync -----

  /** Was online and is missing now. */
  predicate Missed(m: Mem, seen: set<string>, id: string) { id in m.cameras && id !in seen && m.cameras[id].online }

  /** Was offline, is missing still, and has been for a minute or longer. */
  predicate Outdated(m: Mem, seen: set<string>, now: int, id: string) {
    id in m.cameras && id !in seen && !m.cameras[id].online && id in m.offlineSince &&
      now - m.offlineSince[id] >= 60_000_000_000
  }

  /** One camera after a sync. */
  ghost predicate CameraSynced(m: Mem, m': Mem, seen: set<string>, now: int, id: string) {
    && (id in m'.cameras <==> id in seen || (id in m.cameras && !Outdated(m, seen, now, id)))
    && (id in seen && id in m.cameras ==> m'.cameras[id] == m.cameras[id].(online := true, lastSeenAt := now))
    && (id in seen && id !in m.cameras ==>
          m'.cameras[id].online && m'.cameras[id].lastSeenAt == now && PulledFrom(m.base, id, m'.cameras[id].sourceURL))
    && (id in m'.cameras && id !in seen ==> m'.cameras[id] == m.cameras[id].(online := false))
  }

  ghost predicate CamerasSynced(m: Mem, m': Mem, seen: set<string>, now: int) {
    forall id :: CameraSynced(m, m', seen, now, id)
  }

  ghost predicate TimesSynced(m: Mem, m': Mem, seen: set<string>, now: int) {
    && (forall id :: id in m'.offlineSince <==>
          Missed(m, seen, id) ||
          (id in m.offlineSince && !Outdated(m, seen, now, id) &&
            !(id in seen && id in m.cameras && !m.cameras[id].online)))
    && (forall id :: id in m'.offlineSince ==>
          m'.offlineSince[id] == if Missed(m, seen, id) then now else m.offlineSince[id])
  }

  lemma CamerasExact(m: Mem, seen: set<string>, now: int, hits: set<string>)
    ensures CamerasSynced(m, SyncPrune(SyncMark(m, seen, now, hits), Expired(m, seen, now)), seen, now)
  {
    forall id ensures CameraSynced(m, SyncPrune(SyncMark(m, seen, now, hits), Expired(m, seen, now)), seen, now, id) {
      SourceURLExact(m.base, id);
      hide PulledFrom, Names.SourceURL, ClearPositions, MarkedOffline;
    }
  }

  lemma TimesExact(m: Mem, seen: set<string>, now: int, hits: set<string>)
    ensures TimesSynced(m, SyncPrune(SyncMark(m, seen, now, hits), Expired(m, seen, now)), seen, now)
  {
    var times := MarkedOffline(m, seen, now);
    assert forall id :: id in times <==>
      Missed(m, seen, id) || (id in m.offlineSince && !(id in seen && id in m.cameras && !m.cameras[id].online));
    assert forall id :: id in times ==> times[id] == if Missed(m, seen, id) then now else m.offlineSince[id];
    assert forall id :: id in Expired(m, seen, now) <==> Outdated(m, seen, now, id);
    assert forall id :: Outdated(m, seen, now, id) ==> !Missed(m, seen, id);
    hide MarkedOffline, MarkedCameras, Outdated, Missed, Expired, ClearPositions, Gone;
  }

  /** A sync, with any calls failing: cameras and times as above; the positions whose camera goes offline lose it,
      and are switched off and silenced in OBS; nothing else changes. A fetch that fails changes nothing but the
      connection. */
  lemma SyncExact(s: Sys, streams: Option<set<string>>, now: int, f: Faults)
    ensures var s' := SyncOnce(s, streams, now, f);
      match streams
      case None => s' == s.(mem := s.mem.(mediaConnected := false))
      case Some(seen) =>
        var lost := set x | x in s.mem.positions && Missed(s.mem, seen, s.mem.positions[x].cameraID);
        && s'.mem == s.mem.(cameras := s'.mem.cameras, offlineSince := s'.mem.offlineSince, mediaConnected := true,
                            positions := s'.mem.positions, audio := s'.mem.audio)
        && CamerasSynced(s.mem, s'.mem, seen, now) && TimesSynced(s.mem, s'.mem, seen, now)
        && Lost(s.mem, s'.mem, lost, {})
        && s'.obs.inputs == s.obs.inputs && SwitchedOff(s.obs, s'.obs, s.mem, lost, f)
  {
    match streams
    case None =>
    case Some(seen) =>
      var lost := set x | x in s.mem.positions && Missed(s.mem, seen, s.mem.positions[x].cameraID);
      assert Holders(s.mem.positions, Gone(s.mem, seen)) == lost;
      hide Gone, Holders;
      CamerasExact(s.mem, seen, now, lost);
      TimesExact(s.mem, seen, now, lost);
      ClearExact(s.mem, lost);
      SettleExact(s.obs, s.mem, lost, f);
      LostInSync(s.mem, ClearPositions(s.mem, lost), SyncOnce(s, streams, now, f).mem, lost);
      hide CamerasSynced, TimesSynced, Lost, SwitchedOff, Settle, MarkedCameras, MarkedOffline, Expired;
  }

  lemma LostInSync(m: Mem, c: Mem, m': Mem, lost: set<string>)
    requires lost <= m.positions.Keys && Lost(m, c, lost, {}) && m'.positions == c.positions && m'.audio == c.audio
    ensures Lost(m, m', lost, {})
  {}

  // ----- New -----

  predicate LastPosition(defs: seq<PositionDef>, id: string, i: int) {
    0 <= i < |defs| && defs[i].id == id && forall j :: i < j < |defs| ==> defs[j].id != id
  }

  predicate LastScene(defs: seq<SceneDef>, id: string, i: int) {
    0 <= i < |defs| && defs[i].id == id && forall j :: i < j < |defs| ==> defs[j].id != id
  }

  /** New: of several definitions with one id the last counts; the reserved id is skipped; everything else is empty. */
  lemma {:induction false} LoadedExact(defs: seq<PositionDef>, id: string)
    ensures id in LoadPositions(defs) <==> id != SIMPLE && exists i :: LastPosition(defs, id, i)
    ensures forall i :: id != SIMPLE && LastPosition(defs, id, i) ==>
      id in LoadPositions(defs) && LoadPositions(defs)[id] == Position(defs[i].name, "", false)
  {
    if defs != [] {
      var k := |defs| - 1;
      LoadedExact(defs[..k], id);
      assert defs[k].id == id ==> LastPosition(defs, id, k);
      assert defs[k].id != id ==> forall i :: LastPosition(defs[..k], id, i) <==> LastPosition(defs, id, i);
    }
  }

  lemma {:induction false} LoadedScenesExact(defs: seq<SceneDef>, id: string)
    ensures id in LoadScenes(defs) <==> exists i :: LastScene(defs, id, i)
    ensures forall i :: LastScene(defs, id, i) ==>
      id in LoadScenes(defs) && LoadScenes(defs)[id] == Scene(defs[i].name, defs[i].positionIDs)
  {
    if defs != [] {
      var k := |defs| - 1;
      LoadedScenesExact(defs[..k], id);
      assert defs[k].id == id ==> LastScene(defs, id, k);
      assert defs[k].id != id ==> forall i :: LastScene(defs[..k], id, i) <==> LastScene(defs, id, i);
    }
  }

  lemma StartExact(base: string, positions: seq<PositionDef>, scenes: seq<SceneDef>)
    ensures var m := Start(base, positions, scenes);
      && m.base == base && m.cameras == map[] && m.offlineSince == map[] && !m.mediaConnected && m.audio == ""
      && m.live == LiveState(KindNone, "", KindNone, "") && !m.hiddenReady
      && m.positionStore.saved == positions && m.sceneStore.saved == scenes
      && m.positions == LoadPositions(positions) && m.scenes == LoadScenes(scenes)
  {}
}
