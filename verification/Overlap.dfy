/** Overlapping operations: the runs that lose a sequential property. */
module Overlap {
  import opened Model
  import opened Sections
  import opened Invariants
  import opened Interleaved

  lemma RunOne(st: State, trace: seq<(nat, Action)>, t: nat, a: Action)
    requires Enabled(Run(st, trace), t, a)
    ensures Run(st, trace + [(t, a)]) == Do(Run(st, trace), t, a)
  {
    hide Enabled, Do;
    assert (trace + [(t, a)])[..|trace|] == trace;
  }

  /** Four steps that are all taken. */
  lemma RunFour(st: State, t1: nat, a1: Action, t2: nat, a2: Action, t3: nat, a3: Action, t4: nat, a4: Action)
    requires Enabled(st, t1, a1) && Enabled(Do(st, t1, a1), t2, a2)
    requires Enabled(Do(Do(st, t1, a1), t2, a2), t3, a3)
    requires Enabled(Do(Do(Do(st, t1, a1), t2, a2), t3, a3), t4, a4)
    ensures Run(st, [(t1, a1), (t2, a2), (t3, a3), (t4, a4)]) == Do(Do(Do(Do(st, t1, a1), t2, a2), t3, a3), t4, a4)
  {
    hide Enabled, Do;
    assert [] + [(t1, a1)] == [(t1, a1)];
    RunOne(st, [], t1, a1);
    assert [(t1, a1)] + [(t2, a2)] == [(t1, a1), (t2, a2)];
    RunOne(st, [(t1, a1)], t2, a2);
    assert [(t1, a1), (t2, a2)] + [(t3, a3)] == [(t1, a1), (t2, a2), (t3, a3)];
    RunOne(st, [(t1, a1), (t2, a2)], t3, a3);
    assert [(t1, a1), (t2, a2), (t3, a3)] + [(t4, a4)] == [(t1, a1), (t2, a2), (t3, a3), (t4, a4)];
    RunOne(st, [(t1, a1), (t2, a2), (t3, a3)], t4, a4);
  }

  lemma DoAudioCheck(st: State, t: nat, pid: string)
    requires At(st, t).Idle? && pid != SIMPLE && pid in st.mem.positions && st.mem.positions[pid].cameraID != ""
    ensures Enabled(st, t, AudioCheck(pid))
    ensures Do(st, t, AudioCheck(pid)).mem == st.mem
    ensures Do(st, t, AudioCheck(pid)).locals == st.locals[t := SettingAudio(pid, st.mem.audio)]
  {}

  lemma DoAudioFinish(st: State, t: nat)
    requires At(st, t).SettingAudio?
    ensures Enabled(st, t, AudioFinish)
    ensures Do(st, t, AudioFinish).mem == AudioCommit(st.mem, At(st, t).pid, At(st, t).prev).0
    ensures Do(st, t, AudioFinish).locals == st.locals[t := Idle]
  {
    hide AudioCommit;
  }

  /** Whenever two audio selections overlap completely, both positions end up flagged: the second commit drops
      the flag of the audio position it read, not of the one the first commit chose. */
  lemma OverlappingAudioLeavesTwoFlags(st: State, t: nat, u: nat, a: string, b: string)
    requires t != u && At(st, t).Idle? && At(st, u).Idle?
    requires a in st.mem.positions && b in st.mem.positions && a != b && a != SIMPLE && b != SIMPLE
    requires st.mem.positions[a].cameraID != "" && st.mem.positions[b].cameraID != ""
    requires a != st.mem.audio
    ensures var m := Run(st, [(t, AudioCheck(a)), (u, AudioCheck(b)), (t, AudioFinish), (u, AudioFinish)]).mem;
      && a in m.positions && b in m.positions && m.positions[a].isAudio && m.positions[b].isAudio
      && !AudioExact(m.positions, m.audio)
  {
    hide Run, Enabled, Do, NextMem, NextLocal, NextInputs;
    DoAudioCheck(st, t, a);
    var s1 := Do(st, t, AudioCheck(a));
    DoAudioCheck(s1, u, b);
    var s2 := Do(s1, u, AudioCheck(b));
    DoAudioFinish(s2, t);
    DoAudioFinish(Do(s2, t, AudioFinish), u);
    RunFour(st, t, AudioCheck(a), u, AudioCheck(b), t, AudioFinish, u, AudioFinish);
  }

  /** Exactly which complete overlaps break the flag: all but those whose first commit chooses the current source. */
  lemma OverlappingAudioExactly(st: State, t: nat, u: nat, a: string, b: string)
    requires t != u && At(st, t).Idle? && At(st, u).Idle? && Strong(st.mem)
    requires a in st.mem.positions && b in st.mem.positions && a != b && a != SIMPLE && b != SIMPLE
    requires st.mem.positions[a].cameraID != "" && st.mem.positions[b].cameraID != ""
    ensures var m := Run(st, [(t, AudioCheck(a)), (u, AudioCheck(b)), (t, AudioFinish), (u, AudioFinish)]).mem;
      m.audio == b && (AudioExact(m.positions, m.audio) <==> a == st.mem.audio)
  {
    BothCommitAudio(st, t, u, a, b);
    hide Run, Strong;
    assert Strong(st.mem);
    TwoCommitsExactly(st.mem, a, b);
  }

  lemma BothCommitAudio(st: State, t: nat, u: nat, a: string, b: string)
    requires t != u && At(st, t).Idle? && At(st, u).Idle?
    requires a in st.mem.positions && b in st.mem.positions && a != SIMPLE && b != SIMPLE
    requires st.mem.positions[a].cameraID != "" && st.mem.positions[b].cameraID != ""
    ensures Run(st, [(t, AudioCheck(a)), (u, AudioCheck(b)), (t, AudioFinish), (u, AudioFinish)]).mem ==
      AudioCommit(AudioCommit(st.mem, a, st.mem.audio).0, b, st.mem.audio).0
  {
    hide Run, Enabled, Do, NextMem, NextLocal, NextInputs, AudioCommit;
    DoAudioCheck(st, t, a);
    var s1 := Do(st, t, AudioCheck(a));
    DoAudioCheck(s1, u, b);
    var s2 := Do(s1, u, AudioCheck(b));
    DoAudioFinish(s2, t);
    DoAudioFinish(Do(s2, t, AudioFinish), u);
    RunFour(st, t, AudioCheck(a), u, AudioCheck(b), t, AudioFinish, u, AudioFinish);
  }

  lemma TwoCommitsExactly(m: Mem, a: string, b: string)
    requires Strong(m) && a in m.positions && b in m.positions && a != b
    ensures var m' := AudioCommit(AudioCommit(m, a, m.audio).0, b, m.audio).0;
      m'.audio == b && (AudioExact(m'.positions, m'.audio) <==> a == m.audio)
  {
    var m' := AudioCommit(AudioCommit(m, a, m.audio).0, b, m.audio).0;
    assert m'.positions[a].isAudio <==> a != m.audio;
    assert forall id :: id in m.positions && id != a ==> (m'.positions[id].isAudio <==> id == b);
  }

  /** Two steps that are both taken. */
  lemma RunTwo(st: State, t1: nat, a1: Action, t2: nat, a2: Action)
    requires Enabled(st, t1, a1) && Enabled(Do(st, t1, a1), t2, a2)
    ensures Run(st, [(t1, a1), (t2, a2)]) == Do(Do(st, t1, a1), t2, a2)
  {
    hide Enabled, Do;
    assert [] + [(t1, a1)] == [(t1, a1)];
    RunOne(st, [], t1, a1);
    assert [(t1, a1)] + [(t2, a2)] == [(t1, a1), (t2, a2)];
    RunOne(st, [(t1, a1)], t2, a2);
  }

  /** Whenever the scene of a cut is deleted between the cut's check and its commit, it goes live after it is gone. */
  lemma SceneDeletedDuringCutGoesLive(st: State, t: nat, u: nat, sid: string, saveOk: bool)
    requires At(st, t) == CuttingScene(sid) && At(st, u).Idle? && sid in st.mem.scenes
    requires !(st.mem.live.liveKind == KindScene && st.mem.live.liveID == sid)
    ensures var m := Run(st, [(u, DropScene(sid, saveOk)), (t, CutSceneFinish)]).mem;
      m.live.liveKind == KindScene && m.live.liveID == sid && !LiveSceneExists(m.live, m.scenes)
  {
    hide Run, SceneDefs;
    RunTwo(st, u, DropScene(sid, saveOk), t, CutSceneFinish);
  }

  lemma DoSync(st: State, t: nat, seen: set<string>, now: int, hits: set<string>)
    requires At(st, t).Idle? && "" !in seen && FirstHits(st.mem.positions, Gone(st.mem, seen), {}, hits)
    ensures var a := Sync(seen, now, hits);
      && Enabled(st, t, a) && Do(st, t, a).mem == SyncMark(st.mem, seen, now, hits)
      && (forall u :: u != t ==> At(Do(st, t, a), u) == At(st, u))
  {
    hide FirstHits, Gone, SyncMark, Expired;
  }

  lemma DoAssignFinish(st: State, t: nat, hits: set<string>)
    requires At(st, t).Assigning? && FirstHits(st.mem.positions, {At(st, t).cid}, {At(st, t).pid}, hits)
    ensures Enabled(st, t, AssignFinish(hits))
    ensures Do(st, t, AssignFinish(hits)).mem == AssignCommit(st.mem, At(st, t).pid, At(st, t).cid, hits).0
  {
    hide FirstHits, AssignCommit;
  }

  /** Whenever a sync misses the camera of an assignment between its check and its commit, the position ends up
      holding an offline camera. */
  lemma CameraLostDuringAssignOccupies(st: State, t: nat, u: nat, pid: string, cid: string,
                                       seen: set<string>, now: int, hits: set<string>, hits': set<string>)
    requires At(st, t) == Assigning(pid, cid) && At(st, u).Idle? && cid != ""
    requires pid in st.mem.positions && cid in st.mem.cameras && cid !in seen && "" !in seen
    requires FirstHits(st.mem.positions, Gone(st.mem, seen), {}, hits)
    requires FirstHits(SyncMark(st.mem, seen, now, hits).positions, {cid}, {pid}, hits')
    ensures var m := Run(st, [(u, Sync(seen, now, hits)), (t, AssignFinish(hits'))]).mem;
      pid in m.positions && m.positions[pid].cameraID == cid && !OnlineOccupied(m.positions, m.cameras)
  {
    var m' := SyncMark(st.mem, seen, now, hits);
    assert pid in m'.positions && cid in m'.cameras && !m'.cameras[cid].online;
    OfflineOccupant(m', pid, cid, hits');
    hide Run, Enabled, Do, SyncMark, Gone, FirstHits, AssignCommit, OnlineOccupied;
    DoSync(st, u, seen, now, hits);
    DoAssignFinish(Do(st, u, Sync(seen, now, hits)), t, hits');
    RunTwo(st, u, Sync(seen, now, hits), t, AssignFinish(hits'));
  }

  lemma OfflineOccupant(m: Mem, pid: string, cid: string, hits: set<string>)
    requires pid in m.positions && cid != "" && cid in m.cameras && !m.cameras[cid].online
    ensures var m' := AssignCommit(m, pid, cid, hits).0;
      pid in m'.positions && m'.positions[pid].cameraID == cid && !OnlineOccupied(m'.positions, m'.cameras)
  {
    assert AssignCommit(m, pid, cid, hits).0.positions[pid].cameraID == cid;
  }

  // ----- The same runs from idle threads -----

  lemma DoCutBegin(st: State, t: nat)
    requires At(st, t).Idle?
    ensures Enabled(st, t, CutBegin) && Do(st, t, CutBegin).mem == st.mem
    ensures At(Do(st, t, CutBegin), t) == if HiddenPresent(st.mem) then Cutting else Hiding
    ensures forall u :: u != t ==> At(Do(st, t, CutBegin), u) == At(st, u)
  {}

  lemma DoHideFinish(st: State, t: nat)
    requires At(st, t).Hiding?
    ensures Enabled(st, t, HideFinish) && Do(st, t, HideFinish).mem == HiddenCommit(st.mem)
    ensures At(Do(st, t, HideFinish), t) == Cutting
    ensures forall u :: u != t ==> At(Do(st, t, HideFinish), u) == At(st, u)
  {
    hide HiddenCommit;
  }

  lemma DoCutPlan(st: State, t: nat)
    requires At(st, t).Cutting? && PlanCut(st.mem).ShowScene?
    ensures Enabled(st, t, CutPlan) && Do(st, t, CutPlan).mem == st.mem
    ensures At(Do(st, t, CutPlan), t) == CuttingScene(PlanCut(st.mem).sid)
    ensures forall u :: u != t ==> At(Do(st, t, CutPlan), u) == At(st, u)
  {
    hide PlanCut;
  }

  /** A scene that is in preview, not yet live, and of which no position holds an offline camera. */
  ghost predicate SceneReady(m: Mem, sid: string) {
    && m.live.previewKind == KindScene && m.live.previewID == sid && sid != "" && sid in m.scenes
    && !(m.live.liveKind == KindScene && m.live.liveID == sid)
    && (forall pid :: pid in m.scenes[sid].positionIDs && pid in m.positions && pid != SIMPLE ==> !HoldsOffline(m, pid))
  }

  lemma ReadyIsPlanned(m: Mem, sid: string)
    requires SceneReady(m, sid)
    ensures PlanCut(m).ShowScene? && PlanCut(m).sid == sid
    ensures SceneReady(HiddenCommit(m), sid)
  {
    hide Existing;
  }

  /** The steps of a scene cut up to its plan. */
  lemma CutUpToPlan(st: State, t: nat, sid: string) returns (trace: seq<(nat, Action)>)
    requires At(st, t).Idle? && SceneReady(st.mem, sid)
    ensures forall i :: 0 <= i < |trace| ==> trace[i].0 == t
    ensures var st' := Run(st, trace);
      SceneReady(st'.mem, sid) && At(st', t) == CuttingScene(sid) && forall u :: u != t ==> At(st', u) == At(st, u)
  {
    ReadyIsPlanned(st.mem, sid);
    DoCutBegin(st, t);
    trace := [(t, CutBegin)];
    assert Run(st, []) == st && [] + trace == trace;
    RunOne(st, [], t, CutBegin);
    hide Run, Enabled, Do, SceneReady, PlanCut, HiddenCommit;
    var s := Do(st, t, CutBegin);
    if !HiddenPresent(st.mem) {
      DoHideFinish(s, t);
      RunOne(st, trace, t, HideFinish);
      s := Do(s, t, HideFinish);
      trace := trace + [(t, HideFinish)];
    }
    ReadyIsPlanned(s.mem, sid);
    DoCutPlan(s, t);
    RunOne(st, trace, t, CutPlan);
    trace := trace + [(t, CutPlan)];
  }

  /** From any state with two idle threads and a scene ready to be cut to: a cut and a delete of it can overlap so that
      the scene goes live after it is gone. */
  lemma DeletedSceneCanGoLive(st: State, t: nat, u: nat, sid: string, saveOk: bool) returns (trace: seq<(nat, Action)>)
    requires t != u && At(st, t).Idle? && At(st, u).Idle? && SceneReady(st.mem, sid)
    ensures var m := Run(st, trace).mem;
      m.live.liveKind == KindScene && m.live.liveID == sid && !LiveSceneExists(m.live, m.scenes)
  {
    var begun := CutUpToPlan(st, t, sid);
    hide Run;
    SceneDeletedDuringCutGoesLive(Run(st, begun), t, u, sid, saveOk);
    trace := begun + [(u, DropScene(sid, saveOk)), (t, CutSceneFinish)];
    RunConcat(st, begun, [(u, DropScene(sid, saveOk)), (t, CutSceneFinish)]);
    hide LiveSceneExists, SceneReady;
  }

  lemma DoAssignCheck(st: State, t: nat, pid: string, cid: string)
    requires At(st, t).Idle? && pid != SIMPLE && pid in st.mem.positions && Online(st.mem, cid)
    requires st.mem.positions[pid].cameraID != cid
    ensures Enabled(st, t, AssignCheck(pid, cid))
    ensures Do(st, t, AssignCheck(pid, cid)).mem == st.mem
    ensures At(Do(st, t, AssignCheck(pid, cid)), t) == Assigning(pid, cid)
    ensures forall u :: u != t ==> At(Do(st, t, AssignCheck(pid, cid)), u) == At(st, u)
  {}

  /** From any state with two idle threads, a public position and an online camera it does not hold: an assignment and a
      sync that misses the camera can overlap so that the position holds an offline camera. */
  lemma OfflineCameraCanOccupy(st: State, t: nat, u: nat, pid: string, cid: string,
                               seen: set<string>, now: int, hits: set<string>, hits': set<string>)
    requires t != u && At(st, t).Idle? && At(st, u).Idle? && cid != ""
    requires pid != SIMPLE && pid in st.mem.positions && Online(st.mem, cid) && st.mem.positions[pid].cameraID != cid
    requires cid !in seen && "" !in seen
    requires FirstHits(st.mem.positions, Gone(st.mem, seen), {}, hits)
    requires FirstHits(SyncMark(st.mem, seen, now, hits).positions, {cid}, {pid}, hits')
    ensures var m := Run(st, [(t, AssignCheck(pid, cid)), (u, Sync(seen, now, hits)), (t, AssignFinish(hits'))]).mem;
      pid in m.positions && m.positions[pid].cameraID == cid && !OnlineOccupied(m.positions, m.cameras)
  {
    DoAssignCheck(st, t, pid, cid);
    hide Run, Enabled, Do, FirstHits, Gone, SyncMark, OnlineOccupied;
    var rest := [(u, Sync(seen, now, hits)), (t, AssignFinish(hits'))];
    CameraLostDuringAssignOccupies(Do(st, t, AssignCheck(pid, cid)), t, u, pid, cid, seen, now, hits, hits');
    RunCons(st, t, AssignCheck(pid, cid), rest);
    assert [(t, AssignCheck(pid, cid))] + rest ==
      [(t, AssignCheck(pid, cid)), (u, Sync(seen, now, hits)), (t, AssignFinish(hits'))];
  }
}
