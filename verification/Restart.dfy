/** What New builds, and that a restart brings back what the stores hold. */
module Restart {
  import opened Obs
  import opened Model
  import Names
  import opened Sections
  import opened Invariants
  import opened Sequential
  import opened SequentialSafety
  import opened OnAir

  /** Definitions as the operations leave them: distinct non-empty ids, distinct names, clean lists. */
  ghost predicate Loadable(positions: seq<PositionDef>, scenes: seq<SceneDef>) {
    && (forall i :: 0 <= i < |positions| ==> positions[i].id != "")
    && (forall i, j :: 0 <= i < j < |positions| ==>
         positions[i].id != positions[j].id && positions[i].name != positions[j].name)
    && (forall i, j :: 0 <= i < j < |scenes| ==> scenes[i].id != scenes[j].id && scenes[i].name != scenes[j].name)
    && (forall i :: 0 <= i < |scenes| ==> CleanList(scenes[i].positionIDs))
  }

  lemma {:induction false} LoadedPositions(defs: seq<PositionDef>)
    requires forall i, j :: 0 <= i < j < |defs| ==> defs[i].id != defs[j].id
    ensures forall id :: id in LoadPositions(defs) ==> id != SIMPLE && exists i :: 0 <= i < |defs| && defs[i].id == id
    ensures forall i :: 0 <= i < |defs| && defs[i].id != SIMPLE ==>
      defs[i].id in LoadPositions(defs) && LoadPositions(defs)[defs[i].id] == Position(defs[i].name, "", false)
  {
    if defs != [] {
      var init := defs[..|defs| - 1];
      LoadedPositions(init);
      assert forall i :: 0 <= i < |init| ==> defs[i] == init[i];
    }
  }

  lemma {:induction false} LoadedScenes(defs: seq<SceneDef>)
    requires forall i, j :: 0 <= i < j < |defs| ==> defs[i].id != defs[j].id
    ensures forall id :: id in LoadScenes(defs) ==> exists i :: 0 <= i < |defs| && defs[i].id == id
    ensures forall i :: 0 <= i < |defs| ==>
      defs[i].id in LoadScenes(defs) && LoadScenes(defs)[defs[i].id] == Scene(defs[i].name, defs[i].positionIDs)
  {
    if defs != [] {
      var init := defs[..|defs| - 1];
      LoadedScenes(init);
      assert forall i :: 0 <= i < |init| ==> defs[i] == init[i];
    }
  }

  /** New starts every run in a good state. */
  lemma StartIsGood(base: string, positions: seq<PositionDef>, scenes: seq<SceneDef>)
    requires Loadable(positions, scenes)
    ensures Good(Start(base, positions, scenes))
  {
    LoadedPositions(positions);
    LoadedScenes(scenes);
    hide LoadPositions, LoadScenes, PositionDefs, SceneDefs, CleanList;
  }

  // ----- Restart -----

  /** The file a successful save leaves is strictly sorted and lists exactly the public definitions. */
  lemma SavedPositionsAreExact(ps: map<string, Position>)
    ensures var defs := PositionDefs(ps);
      && (forall i, j :: 0 <= i < j < |defs| ==> Names.Less(defs[i].id, defs[j].id))
      && (forall i :: 0 <= i < |defs| ==>
           defs[i].id in ps && defs[i].id != SIMPLE && defs[i].name == ps[defs[i].id].name)
      && (forall id :: id in ps && id != SIMPLE ==> exists i :: 0 <= i < |defs| && defs[i].id == id)
  {
    var ids := Names.SortedIds(ps.Keys - {SIMPLE});
    Names.SortedIdsExact(ps.Keys - {SIMPLE});
    assert forall i :: 0 <= i < |ids| ==> ids[i] in ids && PositionDefs(ps)[i].id == ids[i];
    forall id | id in ps && id != SIMPLE
      ensures exists i :: 0 <= i < |PositionDefs(ps)| && PositionDefs(ps)[i].id == id
    {
      assert id in ids;
    }
  }

  lemma SavedScenesAreExact(ss: map<string, Scene>)
    ensures var defs := SceneDefs(ss);
      && (forall i, j :: 0 <= i < j < |defs| ==> Names.Less(defs[i].id, defs[j].id))
      && (forall i :: 0 <= i < |defs| ==>
           defs[i].id in ss && Scene(defs[i].name, defs[i].positionIDs) == ss[defs[i].id])
      && (forall id :: id in ss ==> exists i :: 0 <= i < |defs| && defs[i].id == id)
  {
    var ids := Names.SortedIds(ss.Keys);
    Names.SortedIdsExact(ss.Keys);
    assert forall i :: 0 <= i < |ids| ==> ids[i] in ids && SceneDefs(ss)[i].id == ids[i];
    forall id | id in ss ensures exists i :: 0 <= i < |SceneDefs(ss)| && SceneDefs(ss)[i].id == id {
      assert id in ids;
    }
  }

  /** The public positions with their runtime fields reset. */
  function Reset(ps: map<string, Position>): map<string, Position> {
    map id | id in ps && id != SIMPLE :: Position(ps[id].name, "", false)
  }

  /** Loading what was saved gives the public positions back, with their runtime fields reset. */
  lemma PositionsRoundTrip(ps: map<string, Position>)
    ensures LoadPositions(PositionDefs(ps)) == Reset(ps)
  {
    SavedPositionsAreExact(ps);
    hide PositionDefs, LoadPositions;
    var defs := PositionDefs(ps);
    forall i, j | 0 <= i < j < |defs| ensures defs[i].id != defs[j].id {
      Names.LessTrichotomy(defs[i].id, defs[j].id);
    }
    LoadedPositions(defs);
  }

  lemma ScenesRoundTrip(ss: map<string, Scene>)
    ensures LoadScenes(SceneDefs(ss)) == ss
  {
    SavedScenesAreExact(ss);
    hide SceneDefs, LoadScenes;
    var defs := SceneDefs(ss);
    forall i, j | 0 <= i < j < |defs| ensures defs[i].id != defs[j].id {
      Names.LessTrichotomy(defs[i].id, defs[j].id);
    }
    LoadedScenes(defs);
  }

  /** Restart after any run: for each store whose latest save succeeded, New rebuilds exactly the public ids and
      names, and the scenes with their lists, without runtime state and without the hidden position; when both
      did, the rebuilt state is good again. */
  lemma RestartRoundTrip(s: Sys, trace: seq<(Command, Faults)>, base: string)
    requires Good(s.mem) && LegalRun(s, trace)
    ensures var m := Run(s, trace).mem;
      var m' := Start(base, m.positionStore.saved, m.sceneStore.saved);
      && (m.positionStore.ok ==> m'.positions == Reset(m.positions))
      && (m.sceneStore.ok ==> m'.scenes == m.scenes)
      && (m.positionStore.ok && m.sceneStore.ok ==> Good(m'))
  {
    EveryRunIsGood(s, trace);
    var m := Run(s, trace).mem;
    hide Run, PositionDefs, SceneDefs, LoadPositions, LoadScenes;
    PositionsRoundTrip(m.positions);
    ScenesRoundTrip(m.scenes);
    if m.positionStore.ok && m.sceneStore.ok {
      ResetIsGood(m, Start(base, m.positionStore.saved, m.sceneStore.saved));
    }
    hide Good;
  }

  /** Good public definitions without runtime state are a good state. */
  lemma ResetIsGood(m: Mem, m': Mem)
    requires Inv(m)
    requires m'.positions == Reset(m.positions)
    requires m'.scenes == m.scenes && m'.cameras == map[] && m'.audio == "" && !m'.hiddenReady
    requires m'.live == LiveState(KindNone, "", KindNone, "") && !m'.positionStore.ok && !m'.sceneStore.ok
    ensures Good(m')
  {
    hide PositionDefs, SceneDefs, CleanList;
  }

  // ----- OBS across a restart -----

  /** OBS keeps its tables while New starts from nothing: the two agree after a restart exactly when every position has
      its input, no other input is on, and nothing is unmuted. */
  lemma StartAgreesExactly(m: Mem, o: Tables)
    requires Good(m) && m.audio == "" && forall id :: id in m.positions ==> m.positions[id].cameraID == ""
    ensures Agrees(Sys(m, o)) <==>
      m.positions.Keys <= o.inputs.Keys && forall id :: (IsEnabled(o, id) ==> id in m.positions) && !IsUnmuted(o, id)
  {
    assert "" !in m.positions;
    hide Good;
  }

  /** New has nothing live, so what is on air is sound exactly when nothing is. */
  lemma StartSoundExactly(base: string, positions: seq<PositionDef>, scenes: seq<SceneDef>, o: Tables)
    ensures OnAirSound(Sys(Start(base, positions, scenes), o)) <==> forall id :: !IsEnabled(o, id)
  {}

  /** A restart from a state that agrees with OBS, with both files saved: agreement survives exactly when there was no
      audio position and the hidden input was off; on-air soundness, exactly when nothing was on air. In the other cases
      an input goes on being seen or heard with nothing live and no audio position. */
  lemma RestartAgreesExactly(s: Sys)
    requires Agrees(s) && s.mem.positionStore.ok && s.mem.sceneStore.ok
    ensures var s' := Sys(Start(s.mem.base, s.mem.positionStore.saved, s.mem.sceneStore.saved), s.obs);
      && (Agrees(s') <==> s.mem.audio == "" && !IsEnabled(s.obs, SIMPLE))
      && (OnAirSound(s') <==> forall id :: !IsEnabled(s.obs, id))
  {
    var m' := Start(s.mem.base, s.mem.positionStore.saved, s.mem.sceneStore.saved);
    StartSoundExactly(s.mem.base, s.mem.positionStore.saved, s.mem.sceneStore.saved, s.obs);
    PositionsRoundTrip(s.mem.positions);
    ScenesRoundTrip(s.mem.scenes);
    hide PositionDefs, SceneDefs, LoadPositions, LoadScenes, CleanList, OnAirSound;
    ResetIsGood(s.mem, m');
    StartAgreesExactly(m', s.obs);
    hide Good, Agrees;
    CarriedTables(s, m');
  }

  /** What agreement before the restart says about the tables. */
  lemma CarriedTables(s: Sys, m': Mem)
    requires Agrees(s) && m'.positions.Keys == s.mem.positions.Keys - {SIMPLE}
    ensures m'.positions.Keys <= s.obs.inputs.Keys
    ensures (forall id :: IsEnabled(s.obs, id) ==> id in m'.positions) <==> !IsEnabled(s.obs, SIMPLE)
    ensures (forall id :: !IsUnmuted(s.obs, id)) <==> s.mem.audio == ""
  {
    hide Good;
    assert IsUnmuted(s.obs, s.mem.audio) <==> s.mem.audio != "";
  }
}
