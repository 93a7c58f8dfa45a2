/** Two cuts whose visibility overlaps: OBS ends up showing the one and the live state names the other. */
module CutsDisagree {
  import opened Options
  import opened Model
  import opened Sections
  import opened Invariants
  import opened CutOverlap
  import I = Interleaved
  import Overlap

  // ----- Two cuts that overlap -----

  lemma {:induction false} RunConcat(x: Air, a: seq<(nat, Step)>, b: seq<(nat, Step)>)
    ensures Run(x, a + b) == Run(Run(x, a), b)
  {
    hide Enabled, Do;
    if b == [] {
      assert a + b == a;
    } else {
      var k := |b| - 1;
      RunConcat(x, a, b[..k]);
      assert (a + b)[..|a| + k] == a + b[..k];
    }
  }

  lemma RunOne(x: Air, t: nat, s: Step)
    requires Enabled(x, t, s)
    ensures Run(x, [(t, s)]) == Do(x, t, s)
  {
    hide Enabled, Do;
    assert [(t, s)][..0] == [];
  }

  /** One thread sets every input it has collected, undisturbed. */
  lemma {:induction false} VisitsAll(x: Air, t: nat) returns (trace: seq<(nat, Step)>)
    requires t in x.busy && x.busy[t].todo.Some?
    ensures var x' := Run(x, trace); var b := x.busy[t];
      && x'.st == x.st && x'.busy == x.busy[t := b.(todo := Some({}))]
      && x'.on == x.on - b.todo.value + (b.enable * b.todo.value)
    decreases x.busy[t].todo.value
  {
    var b := x.busy[t];
    if b.todo.value == {} {
      trace := [];
      assert x.busy == x.busy[t := b];
    } else {
      var id :| id in b.todo.value;
      RunOne(x, t, Visit(id, true));
      var x1 := Do(x, t, Visit(id, true));
      hide Run, Do;
      var rest := VisitsAll(x1, t);
      trace := [(t, Visit(id, true))] + rest;
      RunConcat(x, [(t, Visit(id, true))], rest);
    }
  }

  /** Two scene cuts whose visibility overlaps: the second to apply is the first to commit. Whatever its scene shows and
      the other's does not is on in the end, with the other scene live and nobody at it any more. */
  lemma OverlappingCutsDisagree(x: Air, t: nat, u: nat, id: string) returns (trace: seq<(nat, Step)>)
    requires t != u && x.busy.Keys == {t, u} && x.busy[t].todo.None? && x.busy[u].todo.None?
    requires I.At(x.st, t).CuttingScene? && I.At(x.st, u).CuttingScene?
    requires id in x.busy[u].enable && id in x.st.mem.positions && id !in Listed(x.st.mem, I.At(x.st, t).sid)
    ensures var end := Run(x, trace);
      && end.busy == map[] && end.st.mem.live.liveKind == KindScene && end.st.mem.live.liveID == I.At(x.st, t).sid
      && id in end.on && id !in Shown(end.st.mem) && !Settled(end)
  {
    RunOne(x, t, Collect);
    var x1 := Do(x, t, Collect);
    var first := VisitsAll(x1, t);
    var x2 := Run(x1, first);
    RunOne(x2, u, Collect);
    var x3 := Do(x2, u, Collect);
    var second := VisitsAll(x3, u);
    var x4 := Run(x3, second);
    assert id in x4.on && x4.st == x.st;
    var commits := CommitBoth(x4, t, u);
    hide Run, Do, Enabled, Shown, Listed, Settled;
    trace := [(t, Collect)] + (first + ([(u, Collect)] + (second + commits)));
    RunConcat(x, [(t, Collect)], first + ([(u, Collect)] + (second + commits)));
    RunConcat(x1, first, [(u, Collect)] + (second + commits));
    RunConcat(x2, [(u, Collect)], second + commits);
    RunConcat(x3, second, commits);
  }

  lemma CommitBoth(x: Air, t: nat, u: nat) returns (trace: seq<(nat, Step)>)
    requires t != u && x.busy.Keys == {t, u} && x.busy[t].todo == Some({}) && x.busy[u].todo == Some({})
    requires I.At(x.st, t).CuttingScene? && I.At(x.st, u).CuttingScene?
    ensures var end := Run(x, trace);
      && end.busy == map[] && end.on == x.on
      && end.st.mem.live.liveKind == KindScene && end.st.mem.live.liveID == I.At(x.st, t).sid
      && Shown(end.st.mem) == Listed(x.st.mem, I.At(x.st, t).sid)
      && (!(x.on <= Shown(end.st.mem)) ==> !Settled(end))
  {
    RunOne(x, u, Take(I.CutSceneFinish));
    var x1 := Do(x, u, Take(I.CutSceneFinish));
    assert I.At(x1.st, t) == I.At(x.st, t) && x1.st.mem.scenes == x.st.mem.scenes;
    RunOne(x1, t, Take(I.CutSceneFinish));
    hide Run;
    trace := [(u, Take(I.CutSceneFinish))] + [(t, Take(I.CutSceneFinish))];
    RunConcat(x, [(u, Take(I.CutSceneFinish))], [(t, Take(I.CutSceneFinish))]);
    assert x.busy - {u} - {t} == map[];
  }

  // ----- The overlap of two cuts from idle threads -----

  /** One section taken by a thread that does not apply. */
  lemma TakeOne(x: Air, trace: seq<(nat, Step)>, t: nat, a: I.Action) returns (longer: seq<(nat, Step)>)
    requires t !in Run(x, trace).busy && !AfterApply(a) && I.Enabled(Run(x, trace).st, t, a)
    ensures Enabled(Run(x, trace), t, Take(a)) && Run(x, longer) == Do(Run(x, trace), t, Take(a))
  {
    hide I.Enabled, Do, Run;
    RunOne(Run(x, trace), t, Take(a));
    longer := trace + [(t, Take(a))];
    RunConcat(x, trace, [(t, Take(a))]);
  }

  /** The thread stands before the plan of a cut; nothing else has changed but the hidden position. */
  lemma BeginsCut(x: Air, begun: seq<(nat, Step)>, t: nat, sid: string) returns (trace: seq<(nat, Step)>)
    requires var x0 := Run(x, begun);
      t !in x0.busy && I.At(x0.st, t).Idle? && Overlap.SceneReady(x0.st.mem, sid)
    ensures var x0, x' := Run(x, begun), Run(x, trace);
      && x'.on == x0.on && x'.busy == x0.busy && I.At(x'.st, t) == I.Cutting
      && (forall u :: u != t ==> I.At(x'.st, u) == I.At(x0.st, u))
      && (x'.st.mem == x0.st.mem || x'.st.mem == HiddenCommit(x0.st.mem))
  {
    var x0 := Run(x, begun);
    hide Run, Overlap.SceneReady;
    Overlap.DoCutBegin(x0.st, t);
    trace := TakeOne(x, begun, t, I.CutBegin);
    if !HiddenPresent(x0.st.mem) {
      Overlap.DoHideFinish(Run(x, trace).st, t);
      trace := TakeOne(x, trace, t, I.HideFinish);
    }
    hide HiddenCommit, I.Do, I.Enabled;
  }

  /** The thread has planned a cut to the scene; nothing else has changed but the hidden position. */
  ghost predicate Planned(x: Air, x': Air, t: nat, sid: string) {
    && sid in x.st.mem.scenes
    && x'.on == x.on
    && x'.busy == x.busy[t := Apply(IdSet(Existing(x.st.mem, x.st.mem.scenes[sid].positionIDs)), None)]
    && I.At(x'.st, t) == I.CuttingScene(sid)
    && (forall u :: u != t ==> I.At(x'.st, u) == I.At(x.st, u))
    && (x'.st.mem == x.st.mem || x'.st.mem == HiddenCommit(x.st.mem))
  }

  lemma PlansScene(x: Air, begun: seq<(nat, Step)>, t: nat, sid: string) returns (trace: seq<(nat, Step)>)
    requires var x0 := Run(x, begun);
      t !in x0.busy && I.At(x0.st, t).Idle? && Overlap.SceneReady(x0.st.mem, sid)
    ensures Planned(Run(x, begun), Run(x, trace), t, sid)
  {
    var m := Run(x, begun).st.mem;
    trace := BeginsCut(x, begun, t, sid);
    ReadyKnown(m, sid);
    PlanEnables(m, sid);
    hide Run, Overlap.SceneReady, PlanCut, Existing, HiddenCommit;
    Overlap.DoCutPlan(Run(x, trace).st, t);
    trace := TakeOne(x, trace, t, I.CutPlan);
    hide I.Do, I.Enabled;
  }

  lemma ReadyKnown(m: Mem, sid: string)
    requires Overlap.SceneReady(m, sid)
    ensures sid in m.scenes
  {}

  lemma PlanEnables(m: Mem, sid: string)
    requires Overlap.SceneReady(m, sid)
    ensures var ids := m.scenes[sid].positionIDs;
      PlanCut(m) == ShowScene(sid, Existing(m, ids)) && PlanCut(HiddenCommit(m)) == ShowScene(sid, Existing(m, ids))
  {
    ExistingWithHidden(m, m.scenes[sid].positionIDs);
    hide Existing;
  }

  lemma {:induction false} ExistingWithHidden(m: Mem, ids: seq<string>)
    ensures Existing(HiddenCommit(m), ids) == Existing(m, ids)
  {
    if ids != [] { ExistingWithHidden(m, ids[..|ids| - 1]); }
  }

  /** A scene that could be cut to once it is in preview. */
  ghost predicate CouldShow(m: Mem, sid: string) {
    && sid != "" && sid in m.scenes && !(m.live.liveKind == KindScene && m.live.liveID == sid)
    && (forall pid :: pid in m.scenes[sid].positionIDs && pid in m.positions && pid != SIMPLE ==> !HoldsOffline(m, pid))
  }

  lemma Previews(x: Air, begun: seq<(nat, Step)>, u: nat, sid: string) returns (trace: seq<(nat, Step)>)
    requires var x0 := Run(x, begun); u !in x0.busy && I.At(x0.st, u).Idle? && CouldShow(x0.st.mem, sid)
    ensures var x0, x' := Run(x, begun), Run(x, trace);
      && x'.on == x0.on && x'.busy == x0.busy && (forall v :: I.At(x'.st, v) == I.At(x0.st, v))
      && Overlap.SceneReady(x'.st.mem, sid)
      && x'.st.mem.scenes == x0.st.mem.scenes && x'.st.mem.positions == x0.st.mem.positions
  {
    hide Run;
    trace := TakeOne(x, begun, u, I.PreviewScene(sid));
  }

  /** Both threads have planned their cuts. */
  ghost predicate BothPlanned(x: Air, t: nat, u: nat, first: string, second: string) {
    && x.busy.Keys == {t, u} && x.busy[t].todo.None? && x.busy[u].todo.None?
    && I.At(x.st, t) == I.CuttingScene(first) && I.At(x.st, u) == I.CuttingScene(second)
  }

  lemma PlanBoth(x: Air, t: nat, u: nat, first: string, second: string) returns (trace: seq<(nat, Step)>)
    requires t != u && x.busy == map[] && I.At(x.st, t).Idle? && I.At(x.st, u).Idle?
    requires Overlap.SceneReady(x.st.mem, first) && CouldShow(x.st.mem, second)
    ensures var x' := Run(x, trace);
      && BothPlanned(x', t, u, first, second)
      && x'.st.mem.scenes == x.st.mem.scenes && x.st.mem.positions.Keys <= x'.st.mem.positions.Keys
      && second in x.st.mem.scenes
      && (forall id :: id in x.st.mem.scenes[second].positionIDs && id in x.st.mem.positions && id != SIMPLE ==>
            id in x'.busy[u].enable)
  {
    assert Run(x, []) == x;
    var t1 := PlansScene(x, [], t, first);
    StillCouldShow(x.st.mem, second);
    hide Run, Overlap.SceneReady, CouldShow;
    var t2 := Previews(x, t1, u, second);
    trace := PlansScene(x, t2, u, second);
    var m := Run(x, t2).st.mem;
    ExistingIsFilter(m, m.scenes[second].positionIDs);
    hide Existing;
  }

  /** From any state in which nobody applies visibility, with two idle threads, one scene ready in preview and
      another that could be: two whole cuts can overlap so that in the end the first scene is live, and whatever only
      the second shows is on. */
  lemma TwoCutsCanDisagree(x: Air, t: nat, u: nat, first: string, second: string, id: string)
    returns (trace: seq<(nat, Step)>)
    requires t != u && x.busy == map[] && I.At(x.st, t).Idle? && I.At(x.st, u).Idle?
    requires Overlap.SceneReady(x.st.mem, first) && CouldShow(x.st.mem, second)
    requires id in x.st.mem.scenes[second].positionIDs && id in x.st.mem.positions && id != SIMPLE
    requires id !in Listed(x.st.mem, first)
    ensures var end := Run(x, trace);
      && end.busy == map[] && end.st.mem.live.liveKind == KindScene && end.st.mem.live.liveID == first
      && id in end.on && id !in Shown(end.st.mem)
  {
    var planned := PlanBoth(x, t, u, first, second);
    hide Run, Overlap.SceneReady, CouldShow, Shown, Settled;
    var rest := OverlappingCutsDisagree(Run(x, planned), t, u, id);
    trace := planned + rest;
    RunConcat(x, planned, rest);
  }

  lemma StillCouldShow(m: Mem, sid: string)
    requires CouldShow(m, sid)
    ensures CouldShow(HiddenCommit(m), sid)
  {}
}