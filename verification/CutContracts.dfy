/** The cut of the sequential model by its guards: each answer, and each field of memory and each table of OBS. */
module CutContracts {
  import opened Options
  import opened Model
  import opened Obs
  import opened Sections
  import opened Invariants
  import opened Sequential
  import opened SequentialSafety
  import opened PositionContracts
  import opened SceneContracts

  lemma EnsureHiddenExact(s: Sys, f: Faults)
    ensures var s' := EnsureHidden(s, f);
      var ps := s.mem.positions;
      if s.mem.hiddenReady && "__simple__" in ps then s' == s
      else
        && s'.mem == s.mem.(hiddenReady := true,
                            positions := if "__simple__" in ps then ps
                                         else ps["__simple__" := Position("__simple__", "", false)])
        && s'.obs == (if CreateInput("__simple__") in f || "__simple__" in s.obs.inputs then s.obs
                      else s.obs.(inputs := s.obs.inputs["__simple__" := ""],
                                  enabled := s.obs.enabled["__simple__" := false]))
  {}

  // ----- A camera goes on air -----

  /** The hidden position holds the camera and nobody else does; and when the hidden input could be unmuted, the
      audio is its own. */
  ghost predicate CameraOnAir(m: Mem, m': Mem, cid: string, heard: bool) {
    && m' == m.(positions := m'.positions, audio := m'.audio, live := m'.live)
    && m'.live == LiveState(m.live.previewKind, m.live.previewID, KindCamera, cid)
    && m'.audio == (if heard then SIMPLE else m.audio)
    && m'.positions.Keys == m.positions.Keys
    && (forall x :: x in m.positions ==>
          m'.positions[x] == Position(
            m.positions[x].name,
            if x == SIMPLE then cid else if m.positions[x].cameraID == cid then "" else m.positions[x].cameraID,
            if heard then x == SIMPLE ||
              (m.positions[x].isAudio && (x != m.audio || x == "")) else m.positions[x].isAudio))
  }

  lemma FollowExact(s: Sys, f: Faults)
    requires SIMPLE in s.mem.positions
    ensures var s' := FollowAudio(s, f);
      && s'.mem == s.mem.(positions := s'.mem.positions, audio := s'.mem.audio)
      && (if SetMuted(SIMPLE) in f then s'.mem == s.mem else AudioTo(s.mem, s'.mem, SIMPLE))
      && s'.obs.inputs == s.obs.inputs && s'.obs.enabled == s.obs.enabled
      && MutesBecome(s.obs, s'.obs, Silenced(s.mem.audio, SIMPLE, f), if SetMuted(SIMPLE) in f then {} else {SIMPLE})
  {
    HandOverExact(s.obs, s.mem.audio, SIMPLE, f);
    hide MutesBecome, Silenced, MutePrevious, Mute;
  }

  lemma CommitOnAir(m: Mem, m1: Mem, cid: string, heard: bool)
    requires SIMPLE in m.positions && m1 == m.(positions := m1.positions, audio := m1.audio)
    requires if heard then AudioTo(m, m1, SIMPLE) else m1 == m
    requires m.live.previewKind == KindCamera && m.live.previewID == cid
    ensures CameraOnAir(m, CutCameraCommit(m1, cid), cid, heard)
  {}

  /** All of a camera cut once the camera is found online. */
  ghost predicate CutsToCamera(s: Sys, s': Sys, r: Outcome<LiveState>, cid: string, f: Faults)
    requires cid in s.mem.cameras
  {
    if UpdateSource(SIMPLE) in f then s' == s && r == Err(OBSUnreachable)
    else if SIMPLE !in s.obs.inputs then s' == s && r == Err(PositionOBSInputMissing)
    else
      var o := s.obs.(inputs := s.obs.inputs[SIMPLE := s.mem.cameras[cid].sourceURL]);
      if !AllSettable(o, s.mem.positions.Keys, f)
      then r == Err(OBSUnreachable) && s'.mem == s.mem && Applied(o, s'.obs, s.mem.positions.Keys, {SIMPLE}, f)
      else
        && r == Ok(s'.mem.live) && CameraOnAir(s.mem, s'.mem, cid, SetMuted(SIMPLE) !in f)
        && s'.obs.inputs == o.inputs
        && (forall x :: x in s.mem.positions ==> (IsEnabled(s'.obs, x) <==> x == SIMPLE))
        && (forall x :: x !in s.mem.positions ==> (IsEnabled(s'.obs, x) <==> IsEnabled(s.obs, x)))
        && MutesBecome(s.obs, s'.obs, Silenced(s.mem.audio, SIMPLE, f), if SetMuted(SIMPLE) in f then {} else {SIMPLE})
  }

  /** From the applied visibility on. */
  lemma FinishCamera(s: Sys, o: Tables, cid: string, f: Faults)
    requires SIMPLE in s.mem.positions && o.muted == s.obs.muted
    requires s.mem.live.previewKind == KindCamera && s.mem.live.previewID == cid
    ensures var s2 := FollowAudio(s.(obs := o), f);
      && CameraOnAir(s.mem, CutCameraCommit(s2.mem, cid), cid, SetMuted(SIMPLE) !in f)
      && s2.obs.inputs == o.inputs && (forall x :: IsEnabled(s2.obs, x) <==> IsEnabled(o, x))
      && MutesBecome(s.obs, s2.obs, Silenced(s.mem.audio, SIMPLE, f), if SetMuted(SIMPLE) in f then {} else {SIMPLE})
  {
    var s1 := s.(obs := o);
    FollowExact(s1, f);
    var s2 := FollowAudio(s1, f);
    hide FollowAudio;
    CommitOnAir(s.mem, s2.mem, cid, SetMuted(SIMPLE) !in f);
    MutesCarry(s.obs, o, s2.obs, Silenced(s.mem.audio, SIMPLE, f), if SetMuted(SIMPLE) in f then {} else {SIMPLE});
    EnabledCarry(o, s2.obs);
    hide CutCameraCommit, CameraOnAir, MutesBecome, AudioTo, Silenced, IsEnabled;
  }

  lemma CutToCameraExact(s: Sys, cid: string, order: seq<string>, f: Faults)
    requires cid in s.mem.cameras && SIMPLE in s.mem.positions && Enumerates(order, s.mem.positions.Keys)
    requires s.mem.live.previewKind == KindCamera && s.mem.live.previewID == cid
    ensures var (s', r) := CutToCamera(s, cid, order, f); CutsToCamera(s, s', r, cid, f)
  {
    if UpdateSource(SIMPLE) !in f && SIMPLE in s.obs.inputs {
      var o := s.obs.(inputs := s.obs.inputs[SIMPLE := s.mem.cameras[cid].sourceURL]);
      ApplyExact(o, order, s.mem.positions.Keys, {SIMPLE}, f);
      FinishCamera(s, ApplyExclusive(o, order, {SIMPLE}, f).0, cid, f);
      assert forall x :: IsEnabled(o, x) <==> IsEnabled(s.obs, x);
      hide ApplyExclusive, FollowAudio, AllSettable, CutCameraCommit, MutesBecome, Silenced, IsEnabled;
    }
  }

  lemma MutesCarry(o: Tables, o1: Tables, o2: Tables, muted: set<string>, unmuted: set<string>)
    requires o1.muted == o.muted && MutesBecome(o1, o2, muted, unmuted)
    ensures MutesBecome(o, o2, muted, unmuted)
  {
    assert forall x :: (IsMuted(o1, x) <==> IsMuted(o, x)) && (IsUnmuted(o1, x) <==> IsUnmuted(o, x));
  }

  lemma EnabledCarry(o1: Tables, o2: Tables)
    requires o2.enabled == o1.enabled
    ensures forall x :: IsEnabled(o2, x) <==> IsEnabled(o1, x)
  {}

  // ----- A scene goes on air -----

  /** What a scene shows: its positions that exist and are public. */
  function Showing(m: Mem, ids: seq<string>): set<string> {
    set x | x in ids && x in m.positions && x != SIMPLE
  }

  predicate SomeoneOffline(m: Mem, ids: seq<string>) {
    exists x :: x in Showing(m, ids) && m.positions[x].cameraID in m.cameras && m.positions[x].cameraID != "" &&
      !m.cameras[m.positions[x].cameraID].online
  }

  ghost predicate CutsToScene(s: Sys, s': Sys, r: Outcome<LiveState>, sid: string, f: Faults)
    requires sid in s.mem.scenes
  {
    && Applied(s.obs, s'.obs, s.mem.positions.Keys, Showing(s.mem, s.mem.scenes[sid].positionIDs), f)
    && (if AllSettable(s.obs, s.mem.positions.Keys, f)
        then r == Ok(s'.mem.live) &&
             s'.mem == s.mem.(live := LiveState(s.mem.live.previewKind, s.mem.live.previewID, KindScene, sid))
        else r == Err(OBSUnreachable) && s'.mem == s.mem)
  }

  // ----- The cut -----

  /** Each answer of a cut by its guard. `s` is the state once the hidden position is ensured. */
  ghost predicate Cuts(s: Sys, s': Sys, r: Outcome<LiveState>, f: Faults) {
    var live := s.mem.live;
    if live.previewKind == KindNone || live.previewID == "" then s' == s && r == Err(PreviewEmpty)
    else if live.liveKind == live.previewKind && live.liveID == live.previewID then s' == s && r == Ok(live)
    else if live.previewKind == KindCamera then
      if live.previewID !in s.mem.cameras then s' == s && r == Err(CameraNotFound)
      else if !s.mem.cameras[live.previewID].online then s' == s && r == Err(SourceUnavailable)
      else CutsToCamera(s, s', r, live.previewID, f)
    else
      if live.previewID !in s.mem.scenes then s' == s && r == Err(SceneNotFound)
      else if SomeoneOffline(s.mem, s.mem.scenes[live.previewID].positionIDs)
      then s' == s && r == Err(SourceUnavailable)
      else CutsToScene(s, s', r, live.previewID, f)
  }

  lemma OfflineExact(m: Mem, ids: seq<string>)
    ensures (exists pid :: pid in ids && pid in m.positions && pid != SIMPLE && HoldsOffline(m, pid)) <==>
            SomeoneOffline(m, ids)
  {}

  lemma EnabledExact(m: Mem)
    ensures PlanCut(m).ShowScene? ==> IdSet(PlanCut(m).enable) == Showing(m, m.scenes[PlanCut(m).sid].positionIDs)
  {
    if PlanCut(m).ShowScene? { ExistingIsFilter(m, m.scenes[PlanCut(m).sid].positionIDs); }
    hide Existing;
  }

  lemma CutExact(s: Sys, order: seq<string>, f: Faults)
    requires Enumerates(order, EnsureHidden(s, f).mem.positions.Keys)
    ensures var (s', r) := Cut(s, order, f); Cuts(EnsureHidden(s, f), s', r, f)
  {
    var s1 := EnsureHidden(s, f);
    assert SIMPLE in s1.mem.positions;
    EnabledExact(s1.mem);
    if s1.mem.live.previewID in s1.mem.scenes { OfflineExact(s1.mem, s1.mem.scenes[s1.mem.live.previewID].positionIDs); }
    hide EnsureHidden, SomeoneOffline, HoldsOffline, Existing;
    match PlanCut(s1.mem)
    case ShowCamera(cid) =>
      CutToCameraExact(s1, cid, order, f);
      hide CutToCamera, CutsToCamera;
    case ShowScene(sid, enable) =>
      ApplyExact(s1.obs, order, s1.mem.positions.Keys, IdSet(enable), f);
      hide ApplyExclusive, Applied, AllSettable, Showing, IdSet;
    case _ =>
  }

  // ----- The audio of a cut -----

  /** The audio of an accepted cut that is not the already-live shortcut. A camera on air is heard whenever the hidden
      input can be unmuted, whether there was an audio source before or not, and is
        then the only source; when it cannot,
      the source stays what it was. A scene changes nothing about audio. */
  lemma CutAudioExact(s: Sys, order: seq<string>, f: Faults)
    requires Good(s.mem) && Enumerates(order, EnsureHidden(s, f).mem.positions.Keys) && Cut(s, order, f).1.Ok?
    requires !(s.mem.live.liveKind == s.mem.live.previewKind && s.mem.live.liveID == s.mem.live.previewID)
    ensures var s' := Cut(s, order, f).0;
      && (s.mem.live.previewKind == KindCamera && SetMuted(SIMPLE) !in f ==>
            && s'.mem.audio == SIMPLE
            && (forall x :: x in s'.mem.positions ==> (s'.mem.positions[x].isAudio <==> x == SIMPLE))
            && IsUnmuted(s'.obs, SIMPLE))
      && (s.mem.live.previewKind == KindCamera && s.mem.audio !in {"", SIMPLE} && SetMuted(s.mem.audio) !in f ==>
            IsMuted(s'.obs, s.mem.audio))
      && (s.mem.live.previewKind == KindScene || SetMuted(SIMPLE) in f ==>
            && s'.mem.audio == s.mem.audio
            && (forall x :: x in s.mem.positions ==>
                  x in s'.mem.positions && s'.mem.positions[x].isAudio == s.mem.positions[x].isAudio))
      && (s.mem.live.previewKind == KindScene ==> s'.obs.muted == s.obs.muted)
  {
    CutExact(s, order, f);
    EnsureHiddenExact(s, f);
    EnsureHiddenGood(s, f);
    var s1 := EnsureHidden(s, f);
    assert AudioExact(s1.mem.positions, s1.mem.audio);
    hide Good, Cut, EnsureHidden, AllSettable, SomeoneOffline, Showing;
  }
}
