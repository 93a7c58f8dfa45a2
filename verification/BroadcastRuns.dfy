/** What holds in every interleaving of the broadcast manager, clean starts or not: statuses tell the truth, and the
    destinations are those of the selected client. And exactly which step leaks a process. */
module BroadcastRuns {
  import opened Options
  import opened Broadcast
  import opened BroadcastSafety

  // ----- Statuses -----

  lemma {:induction false} SpawnedConnected(m: Manager, list: seq<Destination>, procs: seq<Proc>)
    requires |procs| <= |list|
    ensures var m' := SpawnAll(m, list, procs);
      forall id :: id in m'.dests && (id in m.dests ==> m'.dests[id] != m.dests[id]) ==>
        m'.dests[id].state == Connected && m'.dests[id].proc.Some?
  {
    if procs != [] { SpawnedConnected(m, list, procs[..|procs| - 1]); }
  }

  /** Every step keeps the statuses truthful: nothing is asked of generations, watchers or processes. */
  lemma StepStatus(st: State, a: Action)
    requires StatusTruthful(st.m) && Enabled(st, a)
    ensures StatusTruthful(Do(st, a).m)
  {
    if a.FinishStart? {
      var s := st.starts[a.t];
      SpawnsKeepRest(st.m.(dests := map[]), s.list, a.procs);
      SpawnedConnected(st.m.(dests := map[]), s.list, a.procs);
      hide SpawnAll;
    }
  }

  /** In every interleaving, clean or not: while running a destination is connected exactly when it holds a process and
      failed exactly when it holds none; while not running all are stopped and hold none. */
  lemma {:induction false} EveryRunTellsTheTruth(st: State, trace: seq<Action>)
    requires StatusTruthful(st.m)
    ensures StatusTruthful(Run(st, trace).m)
  {
    if trace != [] {
      var before := Run(st, trace[..|trace| - 1]);
      EveryRunTellsTheTruth(st, trace[..|trace| - 1]);
      if Enabled(before, trace[|trace| - 1]) { StepStatus(before, trace[|trace| - 1]); }
    }
  }

  // ----- Which step leaks -----

  /** The report is accepted at a destination that holds a live process: a stale watcher of the same generation. */
  predicate Forgets(st: State, a: Action) {
    a.WatcherReports? && st.m.running && a.w.liveID in st.m.dests &&
    (var rt := st.m.dests[a.w.liveID];
     rt.gen == a.w.gen && rt.proc.Some? && rt.proc.value in st.m.procs && st.m.procs[rt.proc.value] == Alive)
  }

  /** What needs no clean start. */
  ghost predicate Sound(st: State) {
    StatusTruthful(st.m) && Watched(st.m) && StartsOk(st)
  }

  lemma StartWatched(m: Manager, client: Id, list: seq<Destination>, procs: seq<Proc>)
    requires StatusTruthful(m) && Watched(m) && |procs| <= |list| && DistinctIds(list) && FreshProcs(m, procs)
    ensures Watched(StartCommit(m, client, list, procs).0)
    ensures NoLeak(m) ==> NoLeak(StartCommit(m, client, list, procs).0)
  {
    if !m.running && m.client == Some(client) {
      var m0 := m.(dests := map[]);
      StartSpawns(m, list, procs);
      hide SpawnAll, Watched, NoLeak, StatusTruthful, FreshProcs;
      var m1 := SpawnAll(m0, list, procs);
      HaltedWatched(m1);
      RunningKeeps(m1);
      hide KillAll;
    }
  }

  lemma HaltedWatched(m: Manager)
    requires Watched(m)
    ensures var m' := KillAll(m).(dests := map[]); Watched(m') && (NoLeak(m) ==> NoLeak(m'))
  {}

  lemma ReportWatched(m: Manager, w: Watcher, error: string)
    requires StatusTruthful(m) && Watched(m) && w in m.watchers
    ensures Watched(Report(m, w, error))
  {}

  lemma StopWatched(m: Manager)
    requires Watched(m)
    ensures Watched(Stop(m)) && (NoLeak(m) ==> NoLeak(Stop(m)))
  {}

  lemma StepSound(st: State, a: Action)
    requires Sound(st) && Enabled(st, a)
    ensures Sound(Do(st, a))
  {
    StepStatus(st, a);
    StepStartsOk(st, a);
    StepLeaks(st, a);
  }

  /** A step leaks exactly when it is such a report. */
  lemma StepLeaks(st: State, a: Action)
    requires StatusTruthful(st.m) && Watched(st.m) && StartsOk(st) && Enabled(st, a)
    ensures Watched(Do(st, a).m)
    ensures NoLeak(st.m) ==> (NoLeak(Do(st, a).m) <==> !Forgets(st, a))
  {
    match a
    case FinishStart(t, procs) =>
      assert DistinctIds(st.starts[t].list);
      hide StatusTruthful, NoLeak, Watched, StartCommit, StartsOk;
      StartWatched(st.m, st.starts[t].client, st.starts[t].list, procs);
    case StopAll => StopWatched(st.m);
    case Restart(id, proc, error) =>
      assert proc.Some? ==> proc.value in [proc.value];
      hide StatusTruthful, StartsOk;
      RestartWatched(st.m, id, proc, error);
      if NoLeak(st.m) { RestartNoLeak(st.m, id, proc, error); }
      hide NoLeak, Watched, RestartDestination;
    case WatcherReports(w, error) =>
      ReportWatched(st.m, w, error);
      if NoLeak(st.m) { ReportLeaks(st, a); }
      hide NoLeak, Watched, StatusTruthful;
    case ProcessEnds(p) =>
    case _ =>
  }

  lemma ReportLeaks(st: State, a: Action)
    requires NoLeak(st.m) && a.WatcherReports? && Enabled(st, a)
    ensures NoLeak(Do(st, a).m) <==> !Forgets(st, a)
  {
    var m, m' := st.m, Do(st, a).m;
    if Forgets(st, a) {
      ForgottenProcess(m, a.w, a.error);
    } else {
      forall p | p in m'.procs && m'.procs[p] == Alive ensures p in Held(m'.dests) {
        var d :| d in m.dests && m.dests[d].proc == Some(p);
        assert m'.dests[d].proc == Some(p);
      }
    }
  }

  /** No step of the run is such a report. */
  ghost predicate NeverForgets(st: State, trace: seq<Action>) {
    trace == [] ||
    (var before := Run(st, trace[..|trace| - 1]);
     NeverForgets(st, trace[..|trace| - 1]) &&
     (Enabled(before, trace[|trace| - 1]) ==> !Forgets(before, trace[|trace| - 1])))
  }

  lemma {:induction false} EveryRunIsSound(st: State, trace: seq<Action>)
    requires Sound(st)
    ensures Sound(Run(st, trace))
  {
    if trace != [] {
      var before := Run(st, trace[..|trace| - 1]);
      EveryRunIsSound(st, trace[..|trace| - 1]);
      hide Sound, Enabled, Do;
      if Enabled(before, trace[|trace| - 1]) { StepSound(before, trace[|trace| - 1]); }
    }
  }

  /** In every interleaving: all along, every live process is the one that a single destination holds, exactly when no
      report is accepted at a destination that holds another, live process. */
  lemma {:induction false} NoLeakExactlyWhenNoneForgotten(st: State, trace: seq<Action>)
    requires NoLeak(st.m) && Sound(st)
    ensures NeverForgets(st, trace) <==> forall n :: 0 <= n <= |trace| ==> NoLeak(Run(st, trace[..n]).m)
  {
    hide NoLeak, Sound, Enabled, Do, Forgets;
    if trace == [] {
      assert trace[..0] == [];
    } else {
      var k := |trace| - 1;
      var init := trace[..k];
      NoLeakExactlyWhenNoneForgotten(st, init);
      EveryRunIsSound(st, init);
      assert forall n :: 0 <= n <= k ==> trace[..n] == init[..n];
      assert init[..k] == init && trace[..k + 1] == trace;
      var before := Run(st, init);
      if NoLeak(before.m) && Enabled(before, trace[k]) { SoundStepLeaks(before, trace[k]); }
      assert NeverForgets(st, trace) <==>
        (forall n :: 0 <= n <= k ==> NoLeak(Run(st, trace[..n]).m)) && NoLeak(Run(st, trace).m);
    }
  }

  lemma SoundStepLeaks(st: State, a: Action)
    requires Sound(st) && NoLeak(st.m) && Enabled(st, a)
    ensures NoLeak(Do(st, a).m) <==> !Forgets(st, a)
  {
    StepLeaks(st, a);
    hide NoLeak;
  }

  /** What a caller can check before each start is enough: when every completing start is clean, no live process is
      ever forgotten. */
  lemma CleanStartsForgetNothing(st: State, trace: seq<Action>)
    requires Inv(st.m) && StartsOk(st) && AllStartsClean(st, trace)
    ensures NeverForgets(st, trace)
    ensures forall n :: 0 <= n <= |trace| ==> NoLeak(Run(st, trace[..n]).m)
  {
    RejectsStaleExactlyWhenStartsClean(st, trace);
    forall n | 0 <= n <= |trace| ensures NoLeak(Run(st, trace[..n]).m) {
      assert Inv(Run(st, trace[..n]).m);
    }
    NoLeakExactlyWhenNoneForgotten(st, trace);
    hide NoLeak, NeverForgets, AllStartsClean;
  }

  // ----- Destinations belong to the active client -----

  function IdsOf(list: seq<Destination>): set<Id> { set k | 0 <= k < |list| :: list[k].liveID }

  lemma {:induction false} SpawnedIds(m: Manager, list: seq<Destination>, procs: seq<Proc>)
    requires |procs| <= |list|
    ensures SpawnAll(m, list, procs).dests.Keys == m.dests.Keys + IdsOf(list[..|procs|])
  {
    if procs != [] {
      var k := |procs| - 1;
      SpawnedIds(m, list, procs[..k]);
      assert IdsOf(list[..k + 1]) == IdsOf(list[..k]) + {list[k].liveID} by {
        forall x ensures x in IdsOf(list[..k + 1]) <==> x in IdsOf(list[..k]) || x == list[k].liveID {
          if x in IdsOf(list[..k]) {
            var i :| 0 <= i < k && list[..k][i].liveID == x;
            assert list[..k + 1][i].liveID == x;
          }
          if x == list[k].liveID { assert list[..k + 1][k].liveID == x; }
        }
      }
    }
  }

  /** While running, no step but a stop changes the client or the destination ids. */
  lemma StepKeepsOwner(st: State, a: Action)
    requires Enabled(st, a) && st.m.running && !a.StopAll?
    ensures var m' := Do(st, a).m; m'.running && m'.client == st.m.client && m'.dests.Keys == st.m.dests.Keys
  {}

  lemma NotStarted(st: State, a: Action)
    requires Enabled(st, a) && !CompletesStart(st, a) && (st.m.running ==> a.StopAll?)
    ensures !Do(st, a).m.running
  {
    if a.FinishStart? && st.m.client == Some(st.starts[a.t].client) {
      SpawnsKeepRest(st.m.(dests := map[]), st.starts[a.t].list, a.procs);
    }
    hide SpawnAll;
  }

  /** Step k of the run completed the start that is still running: the client is the one that start had read, and the
      destinations are exactly those the provider answered to that start. */
  ghost predicate StartedBy(st: State, trace: seq<Action>, k: int) {
    0 <= k < |trace| &&
    (var before, end := Run(st, trace[..k]), Run(st, trace);
     && Enabled(before, trace[k]) && CompletesStart(before, trace[k])
     && (before.starts[trace[k].t].client, before.starts[trace[k].t].list) in before.answers
     && end.m.client == Some(before.starts[trace[k].t].client)
     && end.m.dests.Keys == IdsOf(before.starts[trace[k].t].list)
     && (forall j :: k < j <= |trace| ==> Run(st, trace[..j]).m.running))
  }

  lemma CompletedStart(st: State, a: Action)
    requires Enabled(st, a) && CompletesStart(st, a)
    ensures var m' := Do(st, a).m;
      m'.running && m'.client == Some(st.starts[a.t].client) && m'.dests.Keys == IdsOf(st.starts[a.t].list)
  {
    var list := st.starts[a.t].list;
    var m0 := st.m.(dests := map[]);
    SpawnedIds(m0, list, a.procs);
    SpawnsKeepRest(m0, list, a.procs);
    hide SpawnAll;
    assert list[..|a.procs|] == list;
  }

  /** In every interleaving, clean or not: whenever the manager is running, there is the one start that completed last,
      nothing has stopped it since, and the client and the destination ids are exactly what that start had asked for
      and was answered, however starts, stops and selections overlapped. */
  lemma {:induction false} EveryRunIsOwned(st: State, trace: seq<Action>) returns (k: int)
    requires StartsOk(st) && !st.m.running
    ensures Run(st, trace).m.running ==> StartedBy(st, trace, k)
  {
    k := -1;
    if trace != [] {
      var n := |trace| - 1;
      var init := trace[..n];
      var before := Run(st, init);
      EveryRunStartsOk(st, init);
      k := EveryRunIsOwned(st, init);
      assert trace[..n + 1] == trace;
      assert forall j :: 0 <= j <= n ==> trace[..j] == init[..j];
      assert init[..n] == init;
      if Enabled(before, trace[n]) {
        if CompletesStart(before, trace[n]) {
          CompletedStart(before, trace[n]);
          k := n;
        } else if before.m.running && !trace[n].StopAll? {
          StepKeepsOwner(before, trace[n]);
        } else {
          NotStarted(before, trace[n]);
        }
      }
      hide Do, Enabled, CompletesStart;
    }
  }

  // ----- Where runs start, and what a stop kills -----

  /** A new manager is where every run starts. */
  lemma NewIsSound()
    ensures Inv(NEW.m) && Sound(NEW) && NoLeak(NEW.m) && !NEW.m.running
  {}

  /** In any state, a stop kills exactly the processes that are held: what is forgotten lives on, and nothing lives
      when nothing was. */
  lemma StopKillsExactly(m: Manager, p: Proc)
    requires m.running && p in m.procs
    ensures p in Stop(m).procs
    ensures Stop(m).procs[p] == Alive <==> m.procs[p] == Alive && p !in Held(m.dests)
    ensures NoLeak(m) ==> Stop(m).procs[p] != Alive
  {}
}
