/** The program stream of OBS over interleavings: a start switches it on outside the mutex, between its sections, and a
    stop or a failed spawn switches it off. Exactly which steps let it drift from whether the manager is running. */
module ProgramStream {
  import opened Options
  import B = Broadcast
  import Runs = BroadcastRuns
  import Safety = BroadcastSafety

  /** The manager, whether OBS streams, and the starts that have passed the switching on. */
  datatype Stage = Stage(st: B.State, streaming: bool, passed: set<nat>)

  /** `ok` is what OBS answers to the switching, when the step makes that call. */
  datatype Step =
    | SwitchOn(t: nat, ok: bool)
    | Manage(a: B.Action, ok: bool)

  ghost predicate Enabled(x: Stage, s: Step) {
    match s
    case SwitchOn(t, _) => t in x.st.starts && x.st.starts[t].Answered? && t !in x.passed
    case Manage(a, _) =>
      B.Enabled(x.st, a) && (a.FinishStart? ==> a.t in x.passed) && (a.GiveUp? ==> a.t !in x.passed)
  }

  /** The section of a start that comes to its spawns. */
  predicate Proceeds(st: B.State, a: B.Action)
    requires B.Enabled(st, a)
  {
    a.FinishStart? && !st.m.running && st.m.client == Some(st.starts[a.t].client)
  }

  /** Whether the step asks OBS to stop streaming. */
  predicate SwitchesOff(st: B.State, a: B.Action)
    requires B.Enabled(st, a)
  {
    (a.StopAll? && st.m.running) || (Proceeds(st, a) && |a.procs| < |st.starts[a.t].list|)
  }

  ghost function Do(x: Stage, s: Step): Stage
    requires Enabled(x, s)
  {
    match s
    case SwitchOn(t, ok) =>
      if x.streaming || ok then x.(streaming := true, passed := x.passed + {t})
      else x.(st := x.st.(starts := x.st.starts - {t}))
    case Manage(a, ok) =>
      Stage(B.Do(x.st, a),
            x.streaming && !(SwitchesOff(x.st, a) && ok),
            if a.FinishStart? then x.passed - {a.t} else x.passed)
  }

  ghost function Run(x: Stage, trace: seq<Step>): Stage {
    if trace == [] then x
    else
      var before := Run(x, trace[..|trace| - 1]);
      var s := trace[|trace| - 1];
      if Enabled(before, s) then Do(before, s) else before
  }

  // ----- Drift -----

  /** OBS streams while the manager runs; when it does not run, OBS streams only for a start under way. */
  predicate InSync(x: Stage) {
    (x.st.m.running ==> x.streaming) && (x.streaming && !x.st.m.running ==> x.passed != {})
  }

  /** The last start that had the stream switched on returns early because another client was selected; a start
      completes after somebody has switched the stream off; or OBS refuses to stop when nobody else needs it. */
  predicate Drifts(x: Stage, s: Step)
    requires s.Manage? ==> B.Enabled(x.st, s.a)
  {
    s.Manage? &&
    (if s.a.FinishStart? && !x.st.m.running then
       if !Proceeds(x.st, s.a) then x.streaming && x.passed <= {s.a.t}
       else if SwitchesOff(x.st, s.a) then x.streaming && !s.ok && x.passed <= {s.a.t}
       else !x.streaming
     else SwitchesOff(x.st, s.a) && !s.ok && x.passed == {})
  }

  /** When the manager runs after a step. */
  lemma RunningAfter(st: B.State, a: B.Action)
    requires B.Enabled(st, a)
    ensures B.Do(st, a).m.running <==>
      if st.m.running then !a.StopAll? else Proceeds(st, a) && !SwitchesOff(st, a)
  {
    if Safety.CompletesStart(st, a) {
      Runs.CompletedStart(st, a);
    } else if st.m.running && !a.StopAll? {
      Runs.StepKeepsOwner(st, a);
    } else {
      Runs.NotStarted(st, a);
    }
    hide B.Do;
  }

  /** A step keeps stream and manager in step exactly when it is none of these. */
  lemma StepInSync(x: Stage, s: Step)
    requires InSync(x) && Enabled(x, s)
    ensures InSync(Do(x, s)) <==> !Drifts(x, s)
  {
    if s.Manage? { RunningAfter(x.st, s.a); }
    hide B.Do, B.Enabled;
  }

  ghost predicate NeverDrifts(x: Stage, trace: seq<Step>) {
    trace == [] ||
    (var before := Run(x, trace[..|trace| - 1]);
     var s := trace[|trace| - 1];
     NeverDrifts(x, trace[..|trace| - 1]) && (Enabled(before, s) ==> !Drifts(before, s)))
  }

  /** In every interleaving: all along, OBS streams while the manager runs and otherwise only for a start under way,
      exactly when no step drifts. */
  lemma {:induction false} InSyncExactlyWhenNeverDrifts(x: Stage, trace: seq<Step>)
    requires InSync(x)
    ensures NeverDrifts(x, trace) <==> forall n :: 0 <= n <= |trace| ==> InSync(Run(x, trace[..n]))
  {
    hide InSync, Enabled, Do, Drifts;
    if trace == [] {
      assert trace[..0] == [];
    } else {
      var k := |trace| - 1;
      var init := trace[..k];
      InSyncExactlyWhenNeverDrifts(x, init);
      assert forall n :: 0 <= n <= k ==> trace[..n] == init[..n];
      assert init[..k] == init && trace[..k + 1] == trace;
      var before := Run(x, init);
      if InSync(before) && Enabled(before, trace[k]) { StepInSync(before, trace[k]); }
      assert NeverDrifts(x, trace) <==>
        (forall n :: 0 <= n <= k ==> InSync(Run(x, trace[..n]))) && InSync(Run(x, trace));
    }
  }

  // ----- What a caller can see to -----

  /** Clients are selected while no start is under way, stops and further starts wait for the one that has the stream
      switched on, and OBS stops when it is asked to. */
  predicate Careful(x: Stage, s: Step) {
    match s
    case SwitchOn(_, _) => x.passed == {}
    case Manage(a, ok) => ok && (a.SelectClient? ==> x.st.starts == map[]) && (a.StopAll? ==> x.passed == {})
  }

  ghost predicate AllCareful(x: Stage, trace: seq<Step>) {
    trace == [] ||
    (var before := Run(x, trace[..|trace| - 1]);
     var s := trace[|trace| - 1];
     AllCareful(x, trace[..|trace| - 1]) && (Enabled(before, s) ==> Careful(before, s)))
  }

  /** The starts under way ask for the selected client; one at most has passed the switching on, and has the stream. */
  predicate Calm(x: Stage) {
    && (forall t :: t in x.st.starts ==> x.st.m.client == Some(x.st.starts[t].client))
    && x.passed <= x.st.starts.Keys
    && (forall t, u :: t in x.passed && u in x.passed ==> t == u)
    && (x.passed != {} ==> x.streaming)
  }

  lemma StepStarts(x: Stage, s: Step)
    requires Calm(x) && Enabled(x, s) && Careful(x, s)
    ensures var x' := Do(x, s);
      && (forall t :: t in x'.st.starts ==> x'.st.m.client == Some(x'.st.starts[t].client))
      && x'.passed <= x'.st.starts.Keys
  {
    if s.Manage? && !s.a.SelectClient? { ClientAfter(x.st, s.a); }
    hide B.StartCommit, B.RestartDestination, B.Stop, B.Report, B.Exit, B.DistinctIds, B.FreshProcs;
  }

  lemma ClientAfter(st: B.State, a: B.Action)
    requires B.Enabled(st, a) && !a.SelectClient?
    ensures B.Do(st, a).m.client == st.m.client
  {
    if a.FinishStart? { Safety.SpawnsKeepRest(st.m.(dests := map[]), st.starts[a.t].list, a.procs); }
    hide B.SpawnAll;
  }

  lemma CarefulStep(x: Stage, s: Step)
    requires InSync(x) && Calm(x) && Enabled(x, s) && Careful(x, s)
    ensures !Drifts(x, s) && InSync(Do(x, s)) && Calm(Do(x, s))
  {
    StepInSync(x, s);
    StepStarts(x, s);
    CarefulStreams(x, s);
    hide B.Do, Do;
  }

  /** One start at a time has the stream switched on, so nobody is left with it off. */
  lemma CarefulStreams(x: Stage, s: Step)
    requires Calm(x) && Enabled(x, s) && Careful(x, s)
    ensures var x' := Do(x, s);
      (x'.passed != {} ==> x'.streaming) && forall t, u :: t in x'.passed && u in x'.passed ==> t == u
  {
    hide B.Do;
  }

  /** So no such run drifts. */
  lemma {:induction false} CarefulRunsStayInSync(x: Stage, trace: seq<Step>)
    requires InSync(x) && Calm(x) && AllCareful(x, trace)
    ensures NeverDrifts(x, trace) && InSync(Run(x, trace)) && Calm(Run(x, trace))
  {
    if trace != [] {
      var before := Run(x, trace[..|trace| - 1]);
      CarefulRunsStayInSync(x, trace[..|trace| - 1]);
      hide InSync, Calm, Enabled, Do, Drifts, Careful;
      if Enabled(before, trace[|trace| - 1]) { CarefulStep(before, trace[|trace| - 1]); }
    }
  }

  // ----- Both drifts are reachable -----

  const NEW := Stage(Safety.NEW, false, {})

  lemma Then(trace: seq<Step>, s: Step) returns (longer: seq<Step>)
    requires Enabled(Run(NEW, trace), s)
    ensures longer == trace + [s] && Run(NEW, longer) == Do(Run(NEW, trace), s)
  {
    longer := trace + [s];
    hide Enabled, Do;
    assert longer[..|trace|] == trace;
  }

  /** A start up to the switching on; it asks for the selected client and is answered with one destination. */
  lemma UpToSwitch(trace: seq<Step>, t: nat, d: B.Destination) returns (longer: seq<Step>)
    requires var x := Run(NEW, trace);
      !x.st.m.running && x.st.m.client.Some? && t !in x.st.starts && t !in x.passed
    ensures var x, x' := Run(NEW, trace), Run(NEW, longer);
      && x'.st.m == x.st.m && x'.streaming && x'.passed == x.passed + {t}
      && x'.st.starts == x.st.starts[t := B.Answered(x.st.m.client.value, [d])]
  {
    hide Run;
    longer := Then(trace, Manage(B.BeginStart(t), true));
    longer := Then(longer, Manage(B.Answer(t, [d]), true));
    longer := Then(longer, SwitchOn(t, true));
  }

  /** Another client is selected between the sections of a start: the start returns early, and OBS streams on with
      nothing running; a stop then does nothing about it. */
  lemma StreamsWhileIdle(c1: B.Id, c2: B.Id, d: B.Destination) returns (trace: seq<Step>)
    requires c1 != c2
    ensures var x := Run(NEW, trace); x.streaming && !x.st.m.running && x.st.starts == map[] && x.passed == {}
    ensures Run(NEW, trace + [Manage(B.StopAll, true)]) == Run(NEW, trace)
  {
    trace := [];
    assert Run(NEW, []) == NEW;
    hide Run;
    trace := Then(trace, Manage(B.SelectClient(c1), true));
    trace := UpToSwitch(trace, 0, d);
    trace := Then(trace, Manage(B.SelectClient(c2), true));
    hide B.SpawnAll, B.KillAll;
    trace := Then(trace, Manage(B.FinishStart(0, []), true));
    assert Run(NEW, trace).st.starts == map[];
    var _ := Then(trace, Manage(B.StopAll, true));
  }

  /** Two starts overlap and the one that completes is stopped before the other does: the manager runs, each destination
      connected, with the stream switched off. */
  lemma RunsSilently(c: B.Id, d: B.Destination, p: B.Proc, q: B.Proc) returns (trace: seq<Step>)
    requires p != q
    ensures var x := Run(NEW, trace); x.st.m.running && !x.streaming && x.passed == {}
  {
    trace := [];
    assert Run(NEW, []) == NEW;
    hide Run;
    trace := Then(trace, Manage(B.SelectClient(c), true));
    trace := UpToSwitch(trace, 0, d);
    trace := UpToSwitch(trace, 1, d);
    trace := Completes(trace, 0, p);
    trace := Then(trace, Manage(B.StopAll, true));
    trace := Completes(trace, 1, q);
  }

  lemma Completes(trace: seq<Step>, t: nat, p: B.Proc) returns (longer: seq<Step>)
    requires var x := Run(NEW, trace);
      && !x.st.m.running && t in x.st.starts && t in x.passed && x.st.starts[t].Answered?
      && x.st.m.client == Some(x.st.starts[t].client) && |x.st.starts[t].list| == 1 && p !in x.st.m.procs
    ensures var x, x' := Run(NEW, trace), Run(NEW, longer);
      && x'.st.m.running && x'.st.m.client == x.st.m.client && x'.streaming == x.streaming
      && x'.passed == x.passed - {t} && x'.st.starts == x.st.starts - {t}
      && x'.st.m.procs.Keys == x.st.m.procs.Keys + {p}
  {
    var x := Run(NEW, trace);
    hide Run;
    longer := Then(trace, Manage(B.FinishStart(t, [p]), true));
    Runs.CompletedStart(x.st, B.FinishStart(t, [p]));
    var m0 := x.st.m.(dests := map[]);
    Safety.SpawnedLedger(m0, x.st.starts[t].list, [p]);
    hide B.SpawnAll;
  }
}
