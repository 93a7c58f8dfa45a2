/** Agreement with OBS over sequential runs: what is on air, where each input points, and what is audible. */
module OnAir {
  import opened Options
  import opened Model
  import Names
  import opened Obs
  import opened Sections
  import opened Invariants
  import opened Sequential
  import opened SequentialSafety

  // ----- Exact exclusivity of a cut, whatever fails -----

  lemma {:induction false} ApplyExclusiveEffect(o: Tables, order: seq<string>, enable: set<string>, f: Faults)
    ensures var (o', ok) := ApplyExclusive(o, order, enable, f);
      && o'.inputs == o.inputs && o'.muted == o.muted
      && (ok <==> forall id :: id in order ==> id in o.inputs && SetEnabled(id) !in f)
      && (ok ==> forall id :: id in order ==> id in o'.enabled && o'.enabled[id] == (id in enable))
      && (forall id :: id !in order ==> (IsEnabled(o', id) <==> IsEnabled(o, id)))
    decreases order
  {
    if order != [] {
      var (o1, ok) := Enable(o, order[0], order[0] in enable, f);
      if ok {
        ApplyExclusiveEffect(o1, order[1..], enable, f);
        var (o', _) := ApplyExclusive(o1, order[1..], enable, f);
        assert forall id :: id in order <==> id == order[0] || id in order[1..];
        assert order[0] !in order[1..] ==> (IsEnabled(o', order[0]) <==> IsEnabled(o1, order[0]));
        assert ApplyExclusive(o1, order[1..], enable, f).1 && order[0] !in order[1..] ==> order[0] in o'.enabled by {
          ApplyKeepsKeys(o1, order[1..], enable, f);
        }
      } else {
        assert order[0] in order;
      }
    }
  }

  lemma {:induction false} ApplyKeepsKeys(o: Tables, order: seq<string>, enable: set<string>, f: Faults)
    ensures o.enabled.Keys <= ApplyExclusive(o, order, enable, f).0.enabled.Keys
    decreases order
  {
    if order != [] && Enable(o, order[0], order[0] in enable, f).1 {
      ApplyKeepsKeys(Enable(o, order[0], order[0] in enable, f).0, order[1..], enable, f);
    }
  }

  /** What a selection puts on air among the known positions. */
  predicate Shown(m: Mem, kind: LiveKind, id: string, pid: string) {
    match kind
    case KindNone => false
    case KindCamera => pid == SIMPLE
    case KindScene => pid != SIMPLE && id in m.scenes && pid in m.scenes[id].positionIDs
  }

  ghost predicate Exclusive(s: Sys) {
    forall pid :: pid in s.mem.positions ==>
      (IsEnabled(s.obs, pid) <==> Shown(s.mem, s.mem.live.liveKind, s.mem.live.liveID, pid))
  }

  lemma FollowAudioEffect(s: Sys, f: Faults)
    ensures var s' := FollowAudio(s, f);
      && s'.mem == s.mem.(positions := s'.mem.positions, audio := s'.mem.audio)
      && s'.mem.positions.Keys == s.mem.positions.Keys
      && (forall id :: id in s'.mem.positions ==> s'.mem.positions[id].cameraID == s.mem.positions[id].cameraID)
      && s'.obs == s.obs.(muted := s'.obs.muted)
  {}

  lemma CutToCameraIsExclusive(s: Sys, cid: string, order: seq<string>, f: Faults)
    requires cid in s.mem.cameras && Enumerates(order, s.mem.positions.Keys)
    requires CutToCamera(s, cid, order, f).1.Ok?
    ensures var (s', r) := CutToCamera(s, cid, order, f);
      s'.mem.live == s.mem.live.(liveKind := KindCamera, liveID := cid) && r.value == s'.mem.live && Exclusive(s')
  {
    var o := Update(s.obs, SIMPLE, s.mem.cameras[cid].sourceURL, f).0;
    ApplyExclusiveEffect(o, order, {SIMPLE}, f);
    FollowAudioEffect(s.(obs := ApplyExclusive(o, order, {SIMPLE}, f).0), f);
    hide ApplyExclusive, FollowAudio;
  }

  lemma CutToSceneIsExclusive(s: Sys, sid: string, order: seq<string>, f: Faults)
    requires sid in s.mem.scenes && Enumerates(order, s.mem.positions.Keys)
    requires CutToScene(s, sid, Existing(s.mem, s.mem.scenes[sid].positionIDs), order, f).1.Ok?
    ensures var (s', r) := CutToScene(s, sid, Existing(s.mem, s.mem.scenes[sid].positionIDs), order, f);
      s'.mem.live == s.mem.live.(liveKind := KindScene, liveID := sid) && r.value == s'.mem.live && Exclusive(s')
  {
    ExistingIsFilter(s.mem, s.mem.scenes[sid].positionIDs);
    ApplyExclusiveEffect(s.obs, order, IdSet(Existing(s.mem, s.mem.scenes[sid].positionIDs)), f);
    hide ApplyExclusive, Existing;
  }

  /** After any successful cut but the already-live shortcut, whatever else fails: the preview is live, and each
      known position is enabled exactly when the selection shows it. */
  lemma CutIsExclusive(s: Sys, order: seq<string>, f: Faults)
    requires Enumerates(order, EnsureHidden(s, f).mem.positions.Keys)
    requires Cut(s, order, f).1.Ok?
    requires !(s.mem.live.liveKind == s.mem.live.previewKind && s.mem.live.liveID == s.mem.live.previewID)
    ensures var (s', r) := Cut(s, order, f);
      && s'.mem.live == s.mem.live.(liveKind := s.mem.live.previewKind, liveID := s.mem.live.previewID)
      && r.value == s'.mem.live && Exclusive(s')
  {
    var s1 := EnsureHidden(s, f);
    assert s1.mem.live == s.mem.live && s1.mem.scenes == s.mem.scenes;
    hide EnsureHidden, CutToCamera, CutToScene, Exclusive;
    match PlanCut(s1.mem)
    case ShowCamera(cid) => CutToCameraIsExclusive(s1, cid, order, f);
    case ShowScene(sid, enable) => CutToSceneIsExclusive(s1, sid, order, f);
    case _ =>
  }

  // ----- Agreement with OBS when its calls succeed -----

  /** Only saves may fail. */
  predicate ObsWorks(f: Faults) { f <= {SavePositions, SaveScenes} }

  ghost predicate InputsExist(ps: map<string, Position>, o: Tables) { ps.Keys <= o.inputs.Keys }

  /** An input that belongs to no position is off. */
  ghost predicate OnlyKnownEnabled(ps: map<string, Position>, o: Tables) {
    forall id :: IsEnabled(o, id) ==> id in ps
  }

  /** The input of an occupied position points at its camera. */
  ghost predicate SourcesAgree(base: string, ps: map<string, Position>, o: Tables) {
    forall id :: id in ps && id in o.inputs && ps[id].cameraID != "" ==>
      o.inputs[id] == Names.SourceURL(base, ps[id].cameraID)
  }

  /** Among the inputs whose mute state was ever set, exactly the audio position's is unmuted, and it holds a camera. */
  ghost predicate AudioAgrees(ps: map<string, Position>, audio: string, o: Tables) {
    && (forall id :: IsUnmuted(o, id) <==> id == audio && audio != "")
    && (audio in ps ==> ps[audio].cameraID != "")
  }

  ghost predicate Matches(base: string, ps: map<string, Position>, audio: string, o: Tables) {
    InputsExist(ps, o) && OnlyKnownEnabled(ps, o) && SourcesAgree(base, ps, o) && AudioAgrees(ps, audio, o)
  }

  ghost predicate Agrees(s: Sys) {
    Good(s.mem) && Matches(s.mem.base, s.mem.positions, s.mem.audio, s.obs)
  }

  /** What the live state allows to be on air. */
  ghost predicate Authorised(m: Mem, o: Tables, id: string) {
    match m.live.liveKind
    case KindNone => false
    case KindCamera => id == SIMPLE && SIMPLE in o.inputs && o.inputs[SIMPLE] == Names.SourceURL(m.base, m.live.liveID)
    case KindScene => m.live.liveID in m.scenes && id in m.scenes[m.live.liveID].positionIDs
  }

  ghost predicate OnAirSound(s: Sys) {
    forall id :: IsEnabled(s.obs, id) ==> Authorised(s.mem, s.obs, id)
  }

  /** Nothing new goes on air, the hidden input keeps its source, and the live state and its scene stay. */
  lemma NothingNewOnAir(s: Sys, s': Sys)
    requires OnAirSound(s)
    requires forall id :: IsEnabled(s'.obs, id) ==> IsEnabled(s.obs, id)
    requires SIMPLE in s.obs.inputs ==> SIMPLE in s'.obs.inputs && s'.obs.inputs[SIMPLE] == s.obs.inputs[SIMPLE]
    requires s'.mem.base == s.mem.base && s'.mem.live.liveKind == s.mem.live.liveKind &&
      s'.mem.live.liveID == s.mem.live.liveID
    requires s.mem.live.liveKind == KindScene && s.mem.live.liveID in s.mem.scenes ==>
      s.mem.live.liveID in s'.mem.scenes &&
        s'.mem.scenes[s.mem.live.liveID].positionIDs == s.mem.scenes[s.mem.live.liveID].positionIDs
    ensures OnAirSound(s')
  {}

  // ----- What the shared steps do to OBS and to the audio position -----

  lemma SettleEffect(o: Tables, m: Mem, hits: set<string>, f: Faults)
    requires ObsWorks(f)
    ensures var o' := Settle(o, m, hits, f);
      && o'.inputs == o.inputs
      && (forall x :: IsEnabled(o', x) <==> IsEnabled(o, x) && !(x in hits && x in o.inputs))
      && (forall x :: IsUnmuted(o', x) <==>
           IsUnmuted(o, x) && !(x in hits && x in m.positions && m.positions[x].isAudio))
  {}

  lemma AudioEffect(o: Tables, pid: string, prev: string, f: Faults)
    requires ObsWorks(f)
    ensures var (o', ok) := Mute(MutePrevious(o, pid, prev, f), pid, false, f);
      && ok && o' == o.(muted := o'.muted)
      && (forall x :: IsUnmuted(o', x) <==> x == pid || (IsUnmuted(o, x) && (x != prev || prev == "")))
  {
    assert SetMuted(pid) !in f && SetMuted(prev) !in f;
  }

  lemma ClearEffect(m: Mem, hits: set<string>)
    requires AudioExact(m.positions, m.audio)
    ensures ClearPositions(m, hits).audio == if m.audio in hits then "" else m.audio
  {}

  /** Clearing positions and settling OBS for them. */
  lemma ClearMatches(m: Mem, o: Tables, hits: set<string>, f: Faults)
    requires Matches(m.base, m.positions, m.audio, o) && AudioExact(m.positions, m.audio) && ObsWorks(f)
    ensures var m' := ClearPositions(m, hits); Matches(m.base, m'.positions, m'.audio, Settle(o, m, hits, f))
  {
    ClearEffect(m, hits);
    SettleEffect(o, m, hits, f);
    hide Settle;
  }

  // ----- Every operation keeps the agreement -----

  lemma CreateAgrees(s: Sys, name: string, id: string, f: Faults)
    requires Agrees(s) && ObsWorks(f) && id !in s.mem.positions && id != "" && id != SIMPLE
    ensures Agrees(CreatePosition(s, name, id, f).0)
    ensures OnAirSound(s) ==> OnAirSound(CreatePosition(s, name, id, f).0)
  {
    CreateGood(s, name, id, f);
    var s' := CreatePosition(s, name, id, f).0;
    CreateEffect(s, name, id, f);
    assert s.mem.audio != id;
    hide CreatePosition, Good;
    EmptyPositionMatches(s, s', id);
    if OnAirSound(s) { NothingNewOnAir(s, s'); }
    hide OnAirSound, Matches;
  }

  lemma EmptyPositionMatches(s: Sys, s': Sys, id: string)
    requires Matches(s.mem.base, s.mem.positions, s.mem.audio, s.obs) && id !in s.mem.positions && s.mem.audio != id
    requires s'.obs.muted == s.obs.muted
    requires s'.obs == s.obs ||
      (id !in s.obs.inputs && s'.obs.inputs == s.obs.inputs[id := ""] && s'.obs.enabled == s.obs.enabled[id := false])
    requires s'.mem.positions == s.mem.positions || (
      && id in s'.obs.inputs && id in s'.mem.positions
      && s'.mem.positions == s.mem.positions[id := s'.mem.positions[id]] && s'.mem.positions[id].cameraID == "")
    ensures Matches(s.mem.base, s'.mem.positions, s.mem.audio, s'.obs)
    ensures forall x :: IsEnabled(s'.obs, x) ==> IsEnabled(s.obs, x)
  {
    assert forall x :: IsUnmuted(s'.obs, x) <==> IsUnmuted(s.obs, x);
    assert forall x :: IsEnabled(s'.obs, x) ==> IsEnabled(s.obs, x);
  }

  lemma CreateEffect(s: Sys, name: string, id: string, f: Faults)
    requires ObsWorks(f) && id !in s.mem.positions && id != SIMPLE
    ensures var s' := CreatePosition(s, name, id, f).0;
      && s'.mem == s.mem.(positions := s'.mem.positions, positionStore := s'.mem.positionStore)
      && s'.obs.muted == s.obs.muted
      && (s'.obs == s.obs ||
           (id !in s.obs.inputs && s'.obs.inputs == s.obs.inputs[id := ""] &&
             s'.obs.enabled == s.obs.enabled[id := false]))
      && (s'.mem.positions == s.mem.positions || (
            && id in s'.obs.inputs && id in s'.mem.positions
            && s'.mem.positions == s.mem.positions[id := s'.mem.positions[id]] && s'.mem.positions[id].cameraID == ""))
  {
    var v := Names.ValidatePositionName(name);
    if v.Ok? { CreateCommitEffect(s.mem, id, v.value, SavePositions !in f); }
    hide CreateCommit, Names.ValidatePositionName, PositionNameIsTaken;
  }

  lemma CreateCommitEffect(m: Mem, id: string, name: string, saveOk: bool)
    requires id !in m.positions
    ensures var m' := CreateCommit(m, id, name, saveOk).0;
      && m' == m.(positions := m'.positions, positionStore := m'.positionStore)
      && (m'.positions == m.positions || m'.positions == m.positions[id := Position(name, "", false)])
  {
    hide PositionDefs, PositionNameIsTaken;
    assert m.positions[id := Position(name, "", false)] - {id} == m.positions;
  }

  lemma RenameEffect(m: Mem, id: string, name: string, saveOk: bool)
    ensures var m' := RenameSection(m, id, name, saveOk).0;
      && m' == m.(positions := m'.positions, positionStore := m'.positionStore)
      && m'.positions.Keys == m.positions.Keys
      && (forall x :: x in m.positions ==> m'.positions[x] == m.positions[x].(name := m'.positions[x].name))
  {
    hide PositionDefs, PositionNameIsTaken;
    var m' := RenameSection(m, id, name, saveOk).0;
    assert m'.positions == m.positions ||
      (id in m.positions && m'.positions == m.positions[id := m.positions[id].(name := name)]);
    assert m' == m.(positions := m'.positions, positionStore := m'.positionStore);
    hide RenameSection;
  }

  lemma RenameAgrees(s: Sys, id: string, name: string, f: Faults)
    requires Agrees(s)
    ensures Agrees(RenamePosition(s, id, name, f).0)
    ensures OnAirSound(s) ==> OnAirSound(RenamePosition(s, id, name, f).0)
  {
    RenameGood(s, id, name, f);
    var v := Names.ValidatePositionName(name);
    if v.Ok? { RenameEffect(s.mem, id, v.value, SavePositions !in f); }
    hide Good, RenameSection, Names.ValidatePositionName;
    var s' := RenamePosition(s, id, name, f).0;
    if OnAirSound(s) { NothingNewOnAir(s, s'); }
    hide OnAirSound;
  }

  lemma DeletedMatches(base: string, ps: map<string, Position>, audio: string, o: Tables, o': Tables, id: string)
    requires Matches(base, ps, audio, o) && id in ps && "" !in ps
    requires o'.inputs == o.inputs - {id}
    requires forall x :: IsEnabled(o', x) <==> x != id && IsEnabled(o, x)
    requires forall x :: IsUnmuted(o', x) <==> x != id && IsUnmuted(o, x)
    ensures Matches(base, ps - {id}, if audio == id then "" else audio, o')
  {
    hide IsEnabled, IsUnmuted;
  }

  lemma DeleteAgrees(s: Sys, id: string, f: Faults)
    requires Agrees(s) && ObsWorks(f)
    ensures Agrees(DeletePosition(s, id, f).0)
    ensures OnAirSound(s) ==> OnAirSound(DeletePosition(s, id, f).0)
  {
    DeleteGood(s, id, f);
    var s' := DeletePosition(s, id, f).0;
    if s' != s {
      DeleteEffect(s, id, f);
      assert "" !in s.mem.positions;
      hide Good, DeletePosition, Matches, IsUnmuted;
      DeletedMatches(s.mem.base, s.mem.positions, s.mem.audio, s.obs, s'.obs, id);
      if OnAirSound(s) { NothingNewOnAir(s, s'); }
      hide OnAirSound;
    }
  }

  lemma DeleteEffect(s: Sys, id: string, f: Faults)
    requires Agrees(s) && ObsWorks(f) && id in s.mem.positions && id != SIMPLE
    ensures var s' := DeletePosition(s, id, f).0;
      && s'.mem == s.mem.(positions := s.mem.positions - {id}, audio := if s.mem.audio == id then "" else s.mem.audio,
                          positionStore := s'.mem.positionStore)
      && s'.obs.inputs == s.obs.inputs - {id}
      && (forall x :: IsEnabled(s'.obs, x) <==> x != id && IsEnabled(s.obs, x))
      && (forall x :: IsUnmuted(s'.obs, x) <==> x != id && IsUnmuted(s.obs, x))
  {
    DropEffect(s.obs, id, s.mem.positions[id], f);
    hide Good, PositionDefs, Matches, DropInput;
  }

  lemma DropEffect(o: Tables, id: string, p: Position, f: Faults)
    requires ObsWorks(f)
    ensures var o' := DropInput(o, id, p, f);
      && o'.inputs == o.inputs - {id}
      && (forall x :: IsEnabled(o', x) <==> x != id && IsEnabled(o, x))
      && (forall x :: IsUnmuted(o', x) <==> x != id && IsUnmuted(o, x))
  {
    assert RemoveInput(id) !in f;
  }

  lemma AssignAgrees(s: Sys, pid: string, cid: string, f: Faults)
    requires Agrees(s) && ObsWorks(f)
    ensures Agrees(AssignCamera(s, pid, cid, f).0)
    ensures OnAirSound(s) ==> OnAirSound(AssignCamera(s, pid, cid, f).0)
  {
    AssignGood(s, pid, cid, f);
    assert CamerasSourced(s.mem.base, s.mem.cameras);
    var s' := AssignCamera(s, pid, cid, f).0;
    if s' != s {
      var hits := Holders(s.mem.positions, {cid}) - {pid};
      var url := Names.SourceURL(s.mem.base, cid);
      assert s' == Sys(AssignCommit(s.mem, pid, cid, hits).0,
        Settle(s.obs.(inputs := s.obs.inputs[pid := url]), s.mem, hits, f));
      PointMatches(s.mem, s.obs, pid, cid, hits, f);
      SettleEffect(s.obs.(inputs := s.obs.inputs[pid := url]), s.mem, hits, f);
      hide Good, AssignCamera, Settle, Matches;
      if OnAirSound(s) { NothingNewOnAir(s, s'); }
      hide OnAirSound;
    }
  }

  /** Pointing the input of a position at a camera and giving it that camera. */
  lemma PointOne(base: string, ps: map<string, Position>, audio: string, o: Tables, pid: string, cid: string)
    requires Matches(base, ps, audio, o) && pid in ps && cid != ""
    ensures Matches(base, ps[pid := ps[pid].(cameraID := cid)], audio,
      o.(inputs := o.inputs[pid := Names.SourceURL(base, cid)]))
  {
    var o' := o.(inputs := o.inputs[pid := Names.SourceURL(base, cid)]);
    assert forall x :: IsUnmuted(o', x) <==> IsUnmuted(o, x);
    assert forall x :: IsEnabled(o', x) <==> IsEnabled(o, x);
  }

  /** Settling other positions and pointing an input that exists do not get in each other's way. */
  lemma SettleElsewhere(o: Tables, m: Mem, hits: set<string>, pid: string, url: string, f: Faults)
    requires pid in o.inputs
    ensures Settle(o.(inputs := o.inputs[pid := url]), m, hits, f) ==
            Settle(o, m, hits, f).(inputs := o.inputs[pid := url])
  {}

  /** Pointing the input at the camera, clearing its other positions and assigning it. */
  lemma PointMatches(m: Mem, o: Tables, pid: string, cid: string, hits: set<string>, f: Faults)
    requires Matches(m.base, m.positions, m.audio, o) && AudioExact(m.positions, m.audio) && ObsWorks(f)
    requires pid in m.positions && pid !in hits && cid != ""
    ensures var m' := AssignCommit(m, pid, cid, hits).0;
      Matches(m.base, m'.positions, m'.audio,
        Settle(o.(inputs := o.inputs[pid := Names.SourceURL(m.base, cid)]), m, hits, f))
  {
    var url := Names.SourceURL(m.base, cid);
    ClearMatches(m, o, hits, f);
    SettleElsewhere(o, m, hits, pid, url, f);
    SettleEffect(o, m, hits, f);
    var c := ClearPositions(m, hits);
    assert c.base == m.base && pid in c.positions;
    hide Settle, ClearPositions, Matches;
    PointOne(m.base, c.positions, c.audio, Settle(o, m, hits, f), pid, cid);
  }

  lemma UnassignAgrees(s: Sys, pid: string, f: Faults)
    requires Agrees(s) && ObsWorks(f)
    ensures Agrees(UnassignPosition(s, pid, f).0)
    ensures OnAirSound(s) ==> OnAirSound(UnassignPosition(s, pid, f).0)
  {
    UnassignGood(s, pid, f);
    ClearMatches(s.mem, s.obs, {pid}, f);
    SettleEffect(s.obs, s.mem, {pid}, f);
    hide Good, Settle, Matches;
    var s' := UnassignPosition(s, pid, f).0;
    if OnAirSound(s) && s' != s { NothingNewOnAir(s, s'); }
    hide OnAirSound;
  }

  /** Handing the audio over to a position that holds a camera. */
  lemma HandOverMatches(m: Mem, o: Tables, pid: string, f: Faults)
    requires Matches(m.base, m.positions, m.audio, o) && pid in m.positions && pid != "" && ObsWorks(f)
    ensures var m' := AudioInternalCommit(m, pid, m.audio);
      var (o', ok) := Mute(MutePrevious(o, pid, m.audio, f), pid, false, f);
      && ok && o' == o.(muted := o'.muted)
      && InputsExist(m'.positions, o') && OnlyKnownEnabled(m'.positions, o') && SourcesAgree(m.base, m'.positions, o')
      && (forall x :: IsUnmuted(o', x) <==> x == pid)
  {
    AudioEffect(o, pid, m.audio, f);
    hide Mute, MutePrevious;
  }

  lemma SetAudioAgrees(s: Sys, pid: string, f: Faults)
    requires Agrees(s) && ObsWorks(f)
    ensures Agrees(SetAudioPosition(s, pid, f).0)
    ensures OnAirSound(s) ==> OnAirSound(SetAudioPosition(s, pid, f).0)
  {
    SetAudioGood(s, pid, f);
    assert "" !in s.mem.positions;
    hide Good;
    var s' := SetAudioPosition(s, pid, f).0;
    if s' != s {
      HandOverMatches(s.mem, s.obs, pid, f);
      assert s'.mem == AudioInternalCommit(s.mem, pid, s.mem.audio);
      hide Mute, MutePrevious, SetAudioPosition, InputsExist, OnlyKnownEnabled, SourcesAgree;
      if OnAirSound(s) { NothingNewOnAir(s, s'); }
    }
    hide OnAirSound;
  }

  /** Nothing changes but scenes, previews and the scene file, and the live scene keeps its list. */
  ghost predicate SceneFrame(m: Mem, m': Mem) {
    && m'.base == m.base && m'.positions == m.positions && m'.audio == m.audio
    && m'.live.liveKind == m.live.liveKind && m'.live.liveID == m.live.liveID
    && (m.live.liveKind == KindScene && m.live.liveID in m.scenes ==>
          m.live.liveID in m'.scenes && m'.scenes[m.live.liveID].positionIDs == m.scenes[m.live.liveID].positionIDs)
  }

  lemma SceneFrameAgrees(s: Sys, s': Sys)
    requires Agrees(s) && Good(s'.mem) && s'.obs == s.obs && SceneFrame(s.mem, s'.mem)
    ensures Agrees(s') && (OnAirSound(s) ==> OnAirSound(s'))
  {
    hide Good, Matches;
    if OnAirSound(s) { NothingNewOnAir(s, s'); }
    hide OnAirSound;
  }

  lemma CreateSceneFrame(m: Mem, id: string, name: string, ids: seq<string>, saveOk: bool)
    requires id !in m.scenes
    ensures SceneFrame(m, CreateSceneSection(m, id, name, ids, saveOk).0)
  {
    hide SceneDefs, ValidateSceneIDs;
    var m' := CreateSceneSection(m, id, name, ids, saveOk).0;
    assert m'.scenes == m.scenes || m'.scenes == m.scenes[id := Scene(name, ids)] ||
      m'.scenes == m.scenes[id := Scene(name, ids)] - {id};
    hide CreateSceneSection;
  }

  lemma RenameSceneFrame(m: Mem, id: string, name: string, saveOk: bool)
    ensures SceneFrame(m, RenameSceneSection(m, id, name, saveOk).0)
  {
    hide SceneDefs, SceneNameIsTaken;
    var m' := RenameSceneSection(m, id, name, saveOk).0;
    assert m'.scenes == m.scenes || (id in m.scenes && m'.scenes == m.scenes[id := m.scenes[id].(name := name)]);
    hide RenameSceneSection;
  }

  lemma DeleteSceneFrame(m: Mem, id: string, saveOk: bool)
    ensures SceneFrame(m, DeleteSceneSection(m, id, saveOk).0)
  {
    hide SceneDefs;
  }

  lemma PreviewFrames(m: Mem, id: string)
    ensures SceneFrame(m, PreviewCameraSection(m, id).0) && SceneFrame(m, PreviewSceneSection(m, id).0)
  {}

  lemma CreateSceneAgrees(s: Sys, name: string, ids: seq<string>, id: string, f: Faults)
    requires Agrees(s) && id !in s.mem.scenes
    ensures Agrees(CreateScene(s, name, ids, id, f).0)
    ensures OnAirSound(s) ==> OnAirSound(CreateScene(s, name, ids, id, f).0)
  {
    CreateSceneGood(s, name, ids, id, f);
    var v := Names.ValidateSceneName(name);
    if v.Ok? {
      CreateSceneFrame(s.mem, id, v.value, Dedupe(ids), SaveScenes !in f);
      hide CreateSceneSection, SceneFrame, Agrees, OnAirSound, Good;
      SceneFrameAgrees(s, CreateScene(s, name, ids, id, f).0);
    }
  }

  lemma RenameSceneAgrees(s: Sys, id: string, name: string, f: Faults)
    requires Agrees(s)
    ensures Agrees(RenameScene(s, id, name, f).0)
    ensures OnAirSound(s) ==> OnAirSound(RenameScene(s, id, name, f).0)
  {
    SceneGood(s, id, name, [], [], f);
    var v := Names.ValidateSceneName(name);
    if v.Ok? {
      RenameSceneFrame(s.mem, id, v.value, SaveScenes !in f);
      hide RenameSceneSection, SceneFrame, Agrees, OnAirSound, Good;
      SceneFrameAgrees(s, RenameScene(s, id, name, f).0);
    }
  }

  lemma DeleteSceneAgrees(s: Sys, id: string, f: Faults)
    requires Agrees(s)
    ensures Agrees(DeleteScene(s, id, f).0)
    ensures OnAirSound(s) ==> OnAirSound(DeleteScene(s, id, f).0)
  {
    SceneGood(s, id, "", [], [], f);
    DeleteSceneFrame(s.mem, id, SaveScenes !in f);
    hide DeleteSceneSection, SceneFrame, Agrees, OnAirSound, Good;
    SceneFrameAgrees(s, DeleteScene(s, id, f).0);
  }

  lemma PreviewAgrees(s: Sys, id: string, f: Faults)
    requires Agrees(s)
    ensures Agrees(SetPreviewCamera(s, id).0) && Agrees(SetPreviewScene(s, id).0)
    ensures OnAirSound(s) ==> OnAirSound(SetPreviewCamera(s, id).0) && OnAirSound(SetPreviewScene(s, id).0)
  {
    SceneGood(s, id, "", [], [], f);
    PreviewFrames(s.mem, id);
    hide Good, Agrees, OnAirSound, SceneFrame, PreviewCameraSection, PreviewSceneSection;
    SceneFrameAgrees(s, SetPreviewCamera(s, id).0);
    SceneFrameAgrees(s, SetPreviewScene(s, id).0);
  }

  /** Applying a set of positions exclusively, when every position has its input. */
  lemma ExclusiveMatches(base: string, ps: map<string, Position>, audio: string, o: Tables, order: seq<string>,
                         enable: set<string>, f: Faults)
    requires Matches(base, ps, audio, o) && Enumerates(order, ps.Keys) && ObsWorks(f)
    ensures var (o', ok) := ApplyExclusive(o, order, enable, f);
      && ok && o' == o.(enabled := o'.enabled) && Matches(base, ps, audio, o')
      && (forall x :: IsEnabled(o', x) <==> x in ps && x in enable)
  {
    ApplyExclusiveEffect(o, order, enable, f);
    hide ApplyExclusive;
    var o' := ApplyExclusive(o, order, enable, f).0;
    assert forall id :: id in ps ==> SetEnabled(id) !in f;
    assert forall x :: IsUnmuted(o', x) <==> IsUnmuted(o, x);
  }

  lemma UpdateSectionFrame(m: Mem, id: string, ids: seq<string>, saveOk: bool)
    ensures var (m', r) := UpdateSceneSection(m, id, ids, saveOk);
      && m'.base == m.base && m'.positions == m.positions && m'.audio == m.audio && m'.live == m.live
      && (r.Ok? ==> id in m'.scenes && m'.scenes[id].positionIDs == ids)
      && (!(m.live.liveKind == KindScene && m.live.liveID == id) || (r.Err? && saveOk) ==> SceneFrame(m, m'))
  {
    hide SceneDefs, ValidateSceneIDs;
  }

  lemma UpdateAgrees(s: Sys, id: string, ids: seq<string>, order: seq<string>, f: Faults)
    requires Agrees(s) && ObsWorks(f) && Enumerates(order, s.mem.positions.Keys)
    ensures Agrees(UpdateScenePositions(s, id, ids, order, f).0)
    ensures OnAirSound(s) && SaveScenes !in f ==> OnAirSound(UpdateScenePositions(s, id, ids, order, f).0)
  {
    SceneGood(s, id, "", ids, order, f);
    UpdateSectionFrame(s.mem, id, Dedupe(ids), SaveScenes !in f);
    ExclusiveMatches(s.mem.base, s.mem.positions, s.mem.audio, s.obs, order, IdSet(Dedupe(ids)), f);
    hide Good, Matches, UpdateSceneSection, Dedupe, ApplyExclusive, SceneFrame;
    var s' := UpdateScenePositions(s, id, ids, order, f).0;
    if s'.mem.live.liveKind == KindScene && s'.mem.live.liveID == id {
    } else {
      hide OnAirSound;
      SceneFrameAgrees(s, s');
    }
  }

  /** A failed save leaves the new list in memory but OBS as it was: what is on air stays authorised exactly when
      the scene is not live or its new list keeps every enabled position. */
  lemma FailedSceneSaveOnAir(s: Sys, id: string, ids: seq<string>, order: seq<string>, f: Faults)
    requires OnAirSound(s) && SaveScenes in f
    requires id in s.mem.scenes && ValidateSceneIDs(s.mem, Dedupe(ids)).Ok?
    ensures OnAirSound(UpdateScenePositions(s, id, ids, order, f).0) <==>
      (s.mem.live.liveKind == KindScene && s.mem.live.liveID == id ==> forall x :: IsEnabled(s.obs, x) ==>
        x in Dedupe(ids))
  {
    hide SceneDefs, Dedupe, ValidateSceneIDs, ApplyExclusive;
    var s' := UpdateScenePositions(s, id, ids, order, f).0;
    assert s'.obs == s.obs && s'.mem.live == s.mem.live;
    if !(s.mem.live.liveKind == KindScene && s.mem.live.liveID == id) { NothingNewOnAir(s, s'); }
  }

  lemma EnsureHiddenAgrees(s: Sys, f: Faults)
    requires Agrees(s) && ObsWorks(f)
    ensures Agrees(EnsureHidden(s, f))
    ensures OnAirSound(s) ==> OnAirSound(EnsureHidden(s, f))
  {
    EnsureHiddenGood(s, f);
    var s' := EnsureHidden(s, f);
    assert CreateInput(SIMPLE) !in f;
    if SIMPLE !in s.mem.positions {
      EmptyPositionMatches(s, s', SIMPLE);
    } else {
      assert s'.obs == s.obs && s'.mem.positions == s.mem.positions;
    }
    hide Good, Matches;
    if OnAirSound(s) {
      assert SIMPLE in s.mem.positions || forall x :: IsEnabled(s'.obs, x) ==> IsEnabled(s.obs, x);
      NothingNewOnAir(s, s');
    }
    hide OnAirSound;
  }

  /** The last section of a camera cut, after the hidden input points at the camera and carries the audio. */
  lemma CameraOnAirMatches(m: Mem, o: Tables, cid: string)
    requires InputsExist(m.positions, o) && OnlyKnownEnabled(m.positions, o) && SIMPLE in m.positions && cid != ""
    requires forall id :: id in m.positions && id != SIMPLE && m.positions[id].cameraID != "" ==>
      o.inputs[id] == Names.SourceURL(m.base, m.positions[id].cameraID)
    requires o.inputs[SIMPLE] == Names.SourceURL(m.base, cid)
    requires m.audio == SIMPLE && forall x :: IsUnmuted(o, x) <==> x == SIMPLE
    ensures var m' := CutCameraCommit(m, cid); Matches(m.base, m'.positions, m'.audio, o)
  {}

  /** OBS after the hidden input is pointed at the camera and shown alone. */
  lemma HiddenShownAlone(m: Mem, o: Tables, url: string, order: seq<string>, f: Faults)
    requires Matches(m.base, m.positions, m.audio, o) && ObsWorks(f) && Enumerates(order, m.positions.Keys) &&
      SIMPLE in m.positions
    ensures var (o', ok) := ApplyExclusive(o.(inputs := o.inputs[SIMPLE := url]), order, {SIMPLE}, f);
      && ok && o'.inputs == o.inputs[SIMPLE := url]
      && (forall x :: IsEnabled(o', x) <==> x == SIMPLE)
      && (forall x :: IsUnmuted(o', x) <==> x == m.audio && m.audio != "")
  {
    var o1 := o.(inputs := o.inputs[SIMPLE := url]);
    ApplyExclusiveEffect(o1, order, {SIMPLE}, f);
    assert forall x :: IsEnabled(o1, x) <==> IsEnabled(o, x);
    assert forall x :: IsUnmuted(o1, x) <==> IsUnmuted(o, x);
    assert forall x :: x in m.positions ==> SetEnabled(x) !in f;
    hide ApplyExclusive;
    var o' := ApplyExclusive(o1, order, {SIMPLE}, f).0;
    assert forall x :: IsUnmuted(o', x) <==> IsUnmuted(o1, x);
  }

  /** The automatic audio, then the last section. */
  lemma FollowedCameraMatches(s: Sys, cid: string, f: Faults)
    requires ObsWorks(f) && SIMPLE in s.mem.positions && cid != ""
    requires InputsExist(s.mem.positions, s.obs)
    requires forall id :: id in s.mem.positions && id != SIMPLE && s.mem.positions[id].cameraID != "" ==>
      s.obs.inputs[id] == Names.SourceURL(s.mem.base, s.mem.positions[id].cameraID)
    requires s.obs.inputs[SIMPLE] == Names.SourceURL(s.mem.base, cid)
    requires forall x :: IsEnabled(s.obs, x) <==> x == SIMPLE
    requires forall x :: IsUnmuted(s.obs, x) <==> x == s.mem.audio && s.mem.audio != ""
    ensures var s' := FollowAudio(s, f);
      var m := CutCameraCommit(s'.mem, cid);
      && Matches(s.mem.base, m.positions, m.audio, s'.obs) && OnAirSound(Sys(m, s'.obs))
  {
    AudioEffect(s.obs, SIMPLE, s.mem.audio, f);
    hide Mute, MutePrevious;
    var s' := FollowAudio(s, f);
    assert s'.mem == AudioInternalCommit(s.mem, SIMPLE, s.mem.audio);
    assert forall x :: IsEnabled(s'.obs, x) <==> IsEnabled(s.obs, x);
    hide FollowAudio;
    CameraOnAirMatches(s'.mem, s'.obs, cid);
    hide Matches;
  }

  lemma CutToCameraAgrees(s: Sys, cid: string, order: seq<string>, f: Faults)
    requires Agrees(s) && ObsWorks(f) && Enumerates(order, s.mem.positions.Keys)
    requires SIMPLE in s.mem.positions && cid != "" && cid in s.mem.cameras
    ensures var s' := CutToCamera(s, cid, order, f).0;
      Matches(s.mem.base, s'.mem.positions, s'.mem.audio, s'.obs) && OnAirSound(s')
  {
    var url := s.mem.cameras[cid].sourceURL;
    assert url == Names.SourceURL(s.mem.base, cid) by { assert CamerasSourced(s.mem.base, s.mem.cameras); }
    assert UpdateSource(SIMPLE) !in f;
    HiddenShownAlone(s.mem, s.obs, url, order, f);
    var s2 := s.(obs := ApplyExclusive(s.obs.(inputs := s.obs.inputs[SIMPLE := url]), order, {SIMPLE}, f).0);
    assert CutToCamera(s, cid, order, f).0 == Sys(CutCameraCommit(FollowAudio(s2, f).mem, cid), FollowAudio(s2, f).obs);
    hide ApplyExclusive, Good, FollowAudio, CutToCamera, CutCameraCommit, OnAirSound;
    FollowedCameraMatches(s2, cid, f);
  }

  lemma CutToSceneAgrees(s: Sys, sid: string, enable: seq<string>, order: seq<string>, f: Faults)
    requires Agrees(s) && ObsWorks(f) && Enumerates(order, s.mem.positions.Keys)
    requires sid in s.mem.scenes && enable == Existing(s.mem, s.mem.scenes[sid].positionIDs)
    ensures var s' := CutToScene(s, sid, enable, order, f).0;
      Matches(s.mem.base, s'.mem.positions, s'.mem.audio, s'.obs) && OnAirSound(s')
  {
    ExistingIsFilter(s.mem, s.mem.scenes[sid].positionIDs);
    ExclusiveMatches(s.mem.base, s.mem.positions, s.mem.audio, s.obs, order, IdSet(enable), f);
    hide ApplyExclusive, Good, Matches, Existing;
  }

  lemma CutKeepsBase(s: Sys, id: string, enable: seq<string>, order: seq<string>, f: Faults)
    ensures id in s.mem.cameras ==> CutToCamera(s, id, order, f).0.mem.base == s.mem.base
    ensures CutToScene(s, id, enable, order, f).0.mem.base == s.mem.base
  {
    hide ApplyExclusive;
  }

  lemma CutAgrees(s: Sys, order: seq<string>, f: Faults)
    requires Agrees(s) && ObsWorks(f) && Enumerates(order, EnsureHidden(s, f).mem.positions.Keys)
    ensures Agrees(Cut(s, order, f).0)
    ensures OnAirSound(s) ==> OnAirSound(Cut(s, order, f).0)
  {
    CutGood(s, order, f);
    EnsureHiddenGood(s, f);
    EnsureHiddenAgrees(s, f);
    var s1 := EnsureHidden(s, f);
    PlanIsPossible(s1.mem);
    hide Good, Matches, EnsureHidden, OnAirSound, CutToCamera, CutToScene;
    match PlanCut(s1.mem)
    case ShowCamera(cid) =>
      CutToCameraAgrees(s1, cid, order, f);
      CutKeepsBase(s1, cid, [], order, f);
    case ShowScene(sid, enable) =>
      CutToSceneAgrees(s1, sid, enable, order, f);
      CutKeepsBase(s1, sid, enable, order, f);
    case _ =>
  }

  lemma SyncAgrees(s: Sys, streams: Option<set<string>>, now: int, f: Faults)
    requires Agrees(s) && ObsWorks(f) && (streams.Some? ==> "" !in streams.value)
    ensures Agrees(SyncOnce(s, streams, now, f))
    ensures OnAirSound(s) ==> OnAirSound(SyncOnce(s, streams, now, f))
  {
    SyncGood(s, streams, now, f);
    var s' := SyncOnce(s, streams, now, f);
    match streams
    case None =>
      assert s'.obs == s.obs;
      if OnAirSound(s) { NothingNewOnAir(s, s'); }
    case Some(seen) =>
      var hits := Holders(s.mem.positions, Gone(s.mem, seen));
      ClearMatches(s.mem, s.obs, hits, f);
      SettleEffect(s.obs, s.mem, hits, f);
      hide Good, Settle, Matches, Gone, Holders, Expired, MarkedCameras, MarkedOffline;
      if OnAirSound(s) { NothingNewOnAir(s, s'); }
  }

  predicate OnPositions(c: Command) {
    c.DoCreatePosition? || c.DoRenamePosition? || c.DoDeletePosition? || c.DoAssignCamera? || c.DoUnassignPosition? ||
      c.DoSetAudioPosition?
  }

  lemma ExecPositionAgrees(s: Sys, c: Command, f: Faults)
    requires Agrees(s) && ObsWorks(f) && Legal(s, c, f) && OnPositions(c)
    ensures Agrees(Exec(s, c, f))
    ensures OnAirSound(s) ==> OnAirSound(Exec(s, c, f))
  {
    hide Agrees, OnAirSound, CreatePosition, RenamePosition;
    hide DeletePosition, AssignCamera, UnassignPosition, SetAudioPosition;
    match c
    case DoCreatePosition(name, id) => CreateAgrees(s, name, id, f);
    case DoRenamePosition(id, name) => RenameAgrees(s, id, name, f);
    case DoDeletePosition(id) => DeleteAgrees(s, id, f);
    case DoAssignCamera(pid, cid) => AssignAgrees(s, pid, cid, f);
    case DoUnassignPosition(pid) => UnassignAgrees(s, pid, f);
    case DoSetAudioPosition(pid) => SetAudioAgrees(s, pid, f);
  }

  lemma ExecAgrees(s: Sys, c: Command, f: Faults)
    requires Agrees(s) && ObsWorks(f) && Legal(s, c, f)
    ensures Agrees(Exec(s, c, f))
    ensures OnAirSound(s) && SaveScenes !in f ==> OnAirSound(Exec(s, c, f))
  {
    if OnPositions(c) {
      ExecPositionAgrees(s, c, f);
    } else {
      hide Agrees, OnAirSound, ObsWorks, Enumerates;
      hide CreateScene, RenameScene, UpdateScenePositions, DeleteScene, SetPreviewCamera;
      hide SetPreviewScene, EnsureHidden, Cut, SyncOnce;
      match c
      case DoCreateScene(name, ids, id) => CreateSceneAgrees(s, name, ids, id, f);
      case DoRenameScene(id, name) => RenameSceneAgrees(s, id, name, f);
      case DoUpdateScene(id, ids, order) => UpdateAgrees(s, id, ids, order, f);
      case DoDeleteScene(id) => DeleteSceneAgrees(s, id, f);
      case DoPreviewCamera(cid) => PreviewAgrees(s, cid, f);
      case DoPreviewScene(sid) => PreviewAgrees(s, sid, f);
      case DoEnsureHidden => EnsureHiddenAgrees(s, f);
      case DoCut(order) => CutAgrees(s, order, f);
      case DoSync(streams, now) => SyncAgrees(s, streams, now, f);
    }
  }

  /** After every sequential run in which OBS calls succeed: every position has its input, an occupied position's
      input points at its camera, the only unmuted input is the audio position's and that position holds a camera.
      When scene saves succeed as well, whatever is enabled is authorised by the live state. */
  lemma {:induction false} EveryHealthyRunAgrees(s: Sys, trace: seq<(Command, Faults)>)
    requires Agrees(s) && LegalRun(s, trace)
    requires forall i :: 0 <= i < |trace| ==> ObsWorks(trace[i].1)
    ensures Agrees(Run(s, trace))
    ensures OnAirSound(s) && (forall i :: 0 <= i < |trace| ==> SaveScenes !in trace[i].1) ==> OnAirSound(Run(s, trace))
  {
    if trace != [] {
      var init := trace[..|trace| - 1];
      EveryHealthyRunAgrees(s, init);
      hide Agrees, OnAirSound, Legal, Exec;
      ExecAgrees(Run(s, init), trace[|trace| - 1].0, trace[|trace| - 1].1);
    }
  }

  /** Where such runs start: New's state, an input for every loaded position, everything off and nothing unmuted. */
  lemma StartAgrees(m: Mem, o: Tables)
    requires Good(m) && m.audio == "" && m.positions.Keys <= o.inputs.Keys
    requires forall id :: id in m.positions ==> m.positions[id].cameraID == ""
    requires forall id :: !IsEnabled(o, id) && !IsUnmuted(o, id)
    ensures Agrees(Sys(m, o)) && OnAirSound(Sys(m, o))
  {
    hide Inv;
  }
}
