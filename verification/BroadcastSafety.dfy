/** Safety of every interleaving of starts, stops, restarts, exits and watcher reports. */
module BroadcastSafety {
  import opened Options
  import opened Broadcast

  // ----- Start -----

  /** What the k-th spawn leaves for its destination. */
  function Spawned(m: Manager, list: seq<Destination>, procs: seq<Proc>, k: nat): Runtime
    requires k < |procs| <= |list|
  {
    Runtime(list[k], Connected, "", Some(procs[k]), m.nextGen + k + 1)
  }

  /** The destination's generation tells which spawn it came from. */
  predicate FromSpawn(m: Manager, list: seq<Destination>, procs: seq<Proc>, id: Id, rt: Runtime)
    requires |procs| <= |list|
  {
    var k := rt.gen - m.nextGen - 1;
    0 <= k < |procs| && list[k].liveID == id && rt == Spawned(m, list, procs, k)
  }

  ghost predicate DestsAre(m: Manager, list: seq<Destination>, procs: seq<Proc>, dests: map<Id, Runtime>)
    requires |procs| <= |list|
  {
    && (forall id :: id in dests ==> FromSpawn(m, list, procs, id, dests[id]))
    && (forall k :: 0 <= k < |procs| ==> list[k].liveID in dests)
  }

  ghost predicate LedgerIs(m: Manager, procs: seq<Proc>, ledger: map<Proc, Life>) {
    && (forall p :: p in ledger <==> p in m.procs || p in procs)
    && (forall p :: p in ledger ==> ledger[p] == if p in procs then Alive else m.procs[p])
  }

  predicate NewWatcher(m: Manager, list: seq<Destination>, procs: seq<Proc>, w: Watcher)
    requires |procs| <= |list|
  {
    var k := w.gen - m.nextGen - 1;
    0 <= k < |procs| && list[k].liveID == w.liveID && w.proc == procs[k]
  }

  ghost predicate WatchersAre(m: Manager, list: seq<Destination>, procs: seq<Proc>, watchers: set<Watcher>)
    requires |procs| <= |list|
  {
    forall w :: w in watchers <==> w in m.watchers || NewWatcher(m, list, procs, w)
  }

  lemma {:induction false} SpawnsKeepRest(m: Manager, list: seq<Destination>, procs: seq<Proc>)
    requires |procs| <= |list|
    ensures var m' := SpawnAll(m, list, procs);
      m'.client == m.client && m'.running == m.running && m'.nextGen == m.nextGen + |procs|
  {
    if procs != [] { SpawnsKeepRest(m, list, procs[..|procs| - 1]); }
  }

  lemma {:induction false} SpawnedDests(m: Manager, list: seq<Destination>, procs: seq<Proc>)
    requires m.dests == map[] && |procs| <= |list| && DistinctIds(list)
    ensures DestsAre(m, list, procs, SpawnAll(m, list, procs).dests)
  {
    if procs != [] {
      var init := procs[..|procs| - 1];
      SpawnedDests(m, list, init);
      SpawnsKeepRest(m, list, init);
    }
  }

  lemma {:induction false} SpawnedLedger(m: Manager, list: seq<Destination>, procs: seq<Proc>)
    requires |procs| <= |list|
    ensures LedgerIs(m, procs, SpawnAll(m, list, procs).procs)
  {
    if procs != [] {
      var init := procs[..|procs| - 1];
      SpawnedLedger(m, list, init);
      assert forall p :: p in procs <==> p in init || p == procs[|procs| - 1];
    }
  }

  lemma {:induction false} SpawnedWatchers(m: Manager, list: seq<Destination>, procs: seq<Proc>)
    requires |procs| <= |list|
    ensures WatchersAre(m, list, procs, SpawnAll(m, list, procs).watchers)
  {
    if procs != [] {
      var init := procs[..|procs| - 1];
      SpawnedWatchers(m, list, init);
      SpawnsKeepRest(m, list, init);
      assert forall w :: NewWatcher(m, list, procs, w) <==>
        NewWatcher(m, list, init, w) || w == Watcher(list[|init|].liveID, m.nextGen + |init| + 1, procs[|init|]);
    }
  }

  /** Every process that lives after the spawns is held. */
  lemma SpawnedHeld(m: Manager, list: seq<Destination>, procs: seq<Proc>, m': Manager)
    requires forall p :: p in m.procs ==> m.procs[p] != Alive
    requires |procs| <= |list| && FreshProcs(m, procs) && DistinctIds(list)
    requires DestsAre(m, list, procs, m'.dests) && LedgerIs(m, procs, m'.procs)
    ensures NoLeak(m')
  {
    forall p | p in m'.procs && m'.procs[p] == Alive ensures p in Held(m'.dests) {
      assert p in procs;
      var k :| 0 <= k < |procs| && procs[k] == p;
      assert FromSpawn(m, list, procs, list[k].liveID, m'.dests[list[k].liveID]);
    }
  }

  lemma SpawnedWatchersUnique(m: Manager, list: seq<Destination>, procs: seq<Proc>, m': Manager)
    requires Watched(m) && |procs| <= |list| && FreshProcs(m, procs) && WatchersAre(m, list, procs, m'.watchers)
    ensures forall v, w :: v in m'.watchers && w in m'.watchers && v.proc == w.proc ==> v == w
    ensures forall w :: w in m'.watchers ==> w.proc in m.procs || w.proc in procs
  {
    assert forall w :: NewWatcher(m, list, procs, w) ==> w.proc in procs && procs[w.gen - m.nextGen - 1] == w.proc;
  }

  lemma SpawnedWatched(m: Manager, list: seq<Destination>, procs: seq<Proc>, m': Manager)
    requires Watched(m) && |procs| <= |list| && FreshProcs(m, procs)
    requires DestsAre(m, list, procs, m'.dests) && LedgerIs(m, procs, m'.procs) &&
      WatchersAre(m, list, procs, m'.watchers)
    ensures Watched(m')
  {
    SpawnedWatchersUnique(m, list, procs, m');
    forall id | id in m'.dests
      ensures m'.dests[id].proc.Some? && m'.dests[id].proc.value in m'.procs &&
        Watcher(id, m'.dests[id].gen, m'.dests[id].proc.value) in m'.watchers
    {
      assert FromSpawn(m, list, procs, id, m'.dests[id]);
      assert NewWatcher(m, list, procs, Watcher(id, m'.dests[id].gen, m'.dests[id].proc.value));
    }
    hide WatchersAre, DestsAre, FreshProcs;
  }

  /** The generations reject stale reports after the spawns exactly when no watcher was ahead. */
  lemma SpawnedGenerations(m: Manager, list: seq<Destination>, procs: seq<Proc>, m': Manager)
    requires Watched(m) && |procs| == |list| && FreshProcs(m, procs) && DistinctIds(list) && m'.running
    requires DestsAre(m, list, procs, m'.dests) && WatchersAre(m, list, procs, m'.watchers)
    ensures GenerationsReject(m') <==> NoStaleAhead(m, list)
  {
    if NoStaleAhead(m, list) {
      forall w | w in m'.watchers && w.liveID in m'.dests
        ensures w.gen <= m'.dests[w.liveID].gen &&
          (w.gen == m'.dests[w.liveID].gen ==> m'.dests[w.liveID].proc == Some(w.proc))
      {
        assert FromSpawn(m, list, procs, w.liveID, m'.dests[w.liveID]);
      }
    } else {
      var w, k :| w in m.watchers && 0 <= k < |list| && list[k].liveID == w.liveID && w.gen > m.nextGen + k;
      assert FromSpawn(m, list, procs, w.liveID, m'.dests[w.liveID]);
      assert w.proc in m.procs && procs[k] in procs;
    }
  }

  /** The spawns of a start from a state that does not run, in which no destination holds a process. */
  lemma StartSpawns(m: Manager, list: seq<Destination>, procs: seq<Proc>)
    requires StatusTruthful(m) && Watched(m) && !m.running
    requires |procs| <= |list| && DistinctIds(list) && FreshProcs(m, procs)
    ensures var m1 := SpawnAll(m.(dests := map[]), list, procs);
      Watched(m1) && (NoLeak(m) ==> NoLeak(m1))
  {
    var m0 := m.(dests := map[]);
    SpawnedDests(m0, list, procs);
    SpawnedLedger(m0, list, procs);
    SpawnedWatchers(m0, list, procs);
    assert Held(m.dests) == {};
    hide SpawnAll, WatchersAre, LedgerIs, DestsAre, FreshProcs;
    SpawnedWatched(m0, list, procs, SpawnAll(m0, list, procs));
    if NoLeak(m) { SpawnedHeld(m0, list, procs, SpawnAll(m0, list, procs)); }
  }

  lemma RunningKeeps(m: Manager)
    ensures Watched(m.(running := true)) <==> Watched(m)
    ensures NoLeak(m.(running := true)) <==> NoLeak(m)
  {}

  lemma SpawnedStatus(m: Manager, list: seq<Destination>, procs: seq<Proc>, m': Manager)
    requires |procs| <= |list| && m'.running && DestsAre(m, list, procs, m'.dests)
    ensures StatusTruthful(m')
  {
    assert forall id :: id in m'.dests ==> FromSpawn(m, list, procs, id, m'.dests[id]);
  }

  /** A start that spawns every process: whatever watchers are under way, the processes and the statuses are right,
      and the generations will go on rejecting stale reports exactly when no watcher is ahead of what it mints. */
  lemma StartExact(m: Manager, client: Id, list: seq<Destination>, procs: seq<Proc>)
    requires Inv(m) && !m.running && m.client == Some(client)
    requires |procs| == |list| && DistinctIds(list) && FreshProcs(m, procs)
    ensures var m' := StartCommit(m, client, list, procs).0;
      && m'.running && DestsAre(m, list, procs, m'.dests)
      && NoLeak(m') && StatusTruthful(m') && Watched(m')
      && (Inv(m') <==> NoStaleAhead(m, list))
  {
    var m0 := m.(dests := map[]);
    SpawnsKeepRest(m0, list, procs);
    StartSpawns(m, list, procs);
    SpawnedTables(m, list, procs);
    var m1 := SpawnAll(m0, list, procs);
    var m' := m1.(running := true);
    hide SpawnAll, NoLeak, Watched, GenerationsReject, DistinctIds, FreshProcs, NoStaleAhead, WatchersAre, DestsAre;
    hide StatusTruthful, LedgerIs;
    RunningKeeps(m1);
    SpawnedGenerations(m, list, procs, m');
    SpawnedStatus(m, list, procs, m');
  }

  /** The tables after the spawns, told from the state before the old destinations were dropped. */
  lemma SpawnedTables(m: Manager, list: seq<Destination>, procs: seq<Proc>)
    requires |procs| <= |list| && DistinctIds(list)
    ensures var m1 := SpawnAll(m.(dests := map[]), list, procs);
      DestsAre(m, list, procs, m1.dests) && LedgerIs(m, procs, m1.procs) && WatchersAre(m, list, procs, m1.watchers)
  {
    var m0 := m.(dests := map[]);
    SpawnedDests(m0, list, procs);
    SpawnedLedger(m0, list, procs);
    SpawnedWatchers(m0, list, procs);
    hide SpawnAll, DistinctIds;
    SameCounter(m0, m, list, procs, SpawnAll(m0, list, procs));
  }

  lemma SameCounter(m0: Manager, m: Manager, list: seq<Destination>, procs: seq<Proc>, m': Manager)
    requires m0 == m.(dests := map[]) && |procs| <= |list|
    requires DestsAre(m0, list, procs, m'.dests) && LedgerIs(m0, procs, m'.procs) &&
      WatchersAre(m0, list, procs, m'.watchers)
    ensures DestsAre(m, list, procs, m'.dests) && LedgerIs(m, procs, m'.procs) &&
      WatchersAre(m, list, procs, m'.watchers)
  {
    assert forall w :: NewWatcher(m0, list, procs, w) <==> NewWatcher(m, list, procs, w);
    assert forall id, rt :: FromSpawn(m0, list, procs, id, rt) <==> FromSpawn(m, list, procs, id, rt);
  }

  /** A start whose next spawn fails, in any state whatever: it answers so, every process it had started is killed,
      older ones are as they were, and there are no destinations. */
  lemma FailedStartIsClean(m: Manager, client: Id, list: seq<Destination>, procs: seq<Proc>)
    requires !m.running && m.client == Some(client) && |procs| < |list| && DistinctIds(list)
    ensures var (m', r) := StartCommit(m, client, list, procs);
      && r == Err(SpawnFailed) && !m'.running && m'.client == m.client && m'.dests == map[]
      && (forall p :: p in m'.procs <==> p in m.procs || p in procs)
      && (forall p :: p in m'.procs ==> m'.procs[p] == if p in procs then Killed else m.procs[p])
  {
    var m0 := m.(dests := map[]);
    SpawnsKeepRest(m0, list, procs);
    SpawnedDests(m0, list, procs);
    SpawnedLedger(m0, list, procs);
    var m1 := SpawnAll(m0, list, procs);
    hide SpawnAll;
    forall p | p in procs ensures p in Held(m1.dests) {
      var k :| 0 <= k < |procs| && procs[k] == p;
      assert FromSpawn(m0, list, procs, list[k].liveID, m1.dests[list[k].liveID]);
    }
    forall p | p in Held(m1.dests) ensures p in procs {
      var id :| id in m1.dests && m1.dests[id].proc == Some(p);
      assert FromSpawn(m0, list, procs, id, m1.dests[id]);
    }
    hide DestsAre;
  }

  /** A start that does not complete keeps the invariant; one that returns early changes nothing. */
  lemma FailedStartKeeps(m: Manager, client: Id, list: seq<Destination>, procs: seq<Proc>)
    requires Inv(m) && |procs| <= |list| && DistinctIds(list) && FreshProcs(m, procs)
    requires m.running || m.client != Some(client) || |procs| < |list|
    ensures var (m', r) := StartCommit(m, client, list, procs);
      Inv(m') && (r != Err(SpawnFailed) ==> m' == m)
  {
    if !m.running && m.client == Some(client) {
      SpawnsKeepRest(m.(dests := map[]), list, procs);
      StartSpawns(m, list, procs);
      hide SpawnAll, NoLeak, Watched, FreshProcs, DistinctIds;
      KillAllKills(SpawnAll(m.(dests := map[]), list, procs));
    }
  }

  lemma KillAllKills(m: Manager)
    requires NoLeak(m) && Watched(m)
    ensures var m' := KillAll(m).(dests := map[]);
      (forall p :: p in m'.procs ==> m'.procs[p] != Alive) && NoLeak(m') && Watched(m')
  {}

  // ----- The other sections -----

  lemma StopKeeps(m: Manager)
    requires Inv(m)
    ensures Inv(Stop(m)) && !Stop(m).running
    ensures forall p :: p in Stop(m).procs ==> Stop(m).procs[p] != Alive
  {
    if !m.running { assert Held(m.dests) == {}; }
  }

  /** A restart never leaks, whatever watchers are under way. */
  lemma RestartNoLeak(m: Manager, id: Id, proc: Option<Proc>, error: string)
    requires NoLeak(m) && Watched(m) && (proc.Some? ==> proc.value !in m.procs)
    ensures NoLeak(RestartDestination(m, id, proc, error).0)
  {
    if m.running && id in m.dests {
      var m' := RestartDestination(m, id, proc, error).0;
      forall p | p in m'.procs && m'.procs[p] == Alive ensures p in Held(m'.dests) {
        if proc == Some(p) {
          assert m'.dests[id].proc == Some(p);
        } else {
          var d :| d in m.dests && m.dests[d].proc == Some(p);
          assert d != id;
          assert m'.dests[d].proc == Some(p);
        }
      }
    }
  }

  lemma RestartWatched(m: Manager, id: Id, proc: Option<Proc>, error: string)
    requires Watched(m) && (proc.Some? ==> proc.value !in m.procs)
    ensures Watched(RestartDestination(m, id, proc, error).0)
  {}

  lemma RestartStatus(m: Manager, id: Id, proc: Option<Proc>, error: string)
    requires StatusTruthful(m)
    ensures StatusTruthful(RestartDestination(m, id, proc, error).0)
  {}

  lemma RestartGenerations(m: Manager, id: Id, proc: Option<Proc>, error: string)
    requires GenerationsReject(m)
    ensures GenerationsReject(RestartDestination(m, id, proc, error).0)
  {}

  lemma RestartKeeps(m: Manager, id: Id, proc: Option<Proc>, error: string)
    requires Inv(m) && (proc.Some? ==> proc.value !in m.procs)
    ensures Inv(RestartDestination(m, id, proc, error).0)
  {
    RestartNoLeak(m, id, proc, error);
    RestartWatched(m, id, proc, error);
    RestartStatus(m, id, proc, error);
    RestartGenerations(m, id, proc, error);
    hide NoLeak, Watched, StatusTruthful, GenerationsReject, RestartDestination;
  }

  lemma ReportKeeps(m: Manager, w: Watcher, error: string)
    requires Inv(m) && w in m.watchers && w.proc in m.procs && m.procs[w.proc] != Alive
    ensures Inv(Report(m, w, error))
  {
    var m' := Report(m, w, error);
    forall p | p in m'.procs && m'.procs[p] == Alive ensures p in Held(m'.dests) {
      var d :| d in m.dests && m.dests[d].proc == Some(p);
      assert m'.dests[d].proc == Some(p);
    }
  }

  /** A report changes a destination exactly when its process is the one held there. */
  lemma ReportIsExact(m: Manager, w: Watcher, error: string)
    requires Inv(m) && w in m.watchers
    ensures Report(m, w, error).dests.Keys == m.dests.Keys
    ensures forall id :: id in m.dests ==>
      Report(m, w, error).dests[id] ==
        if m.running && id == w.liveID && m.dests[id].proc == Some(w.proc)
        then m.dests[id].(proc := None, state := Failed, lastError := error) else m.dests[id]
  {
    if w.liveID in m.dests && m.dests[w.liveID].proc == Some(w.proc) {
      assert Watcher(w.liveID, m.dests[w.liveID].gen, w.proc) in m.watchers;
    }
  }

  lemma ExitKeeps(m: Manager, p: Proc)
    requires Inv(m)
    ensures Inv(Exit(m, p))
  {}

  // ----- Every interleaving -----

  /** A start that is about to spawn all its processes. */
  predicate CompletesStart(st: State, a: Action)
    requires Enabled(st, a)
  {
    && a.FinishStart? && !st.m.running && st.m.client == Some(st.starts[a.t].client)
    && |a.procs| == |st.starts[a.t].list|
  }

  /** Such a start finds no watcher ahead of the generations it mints. */
  ghost predicate StartsClean(st: State, a: Action)
    requires Enabled(st, a)
  {
    CompletesStart(st, a) ==> NoStaleAhead(st.m, st.starts[a.t].list)
  }

  /** What a Start carries between its sections came from the provider. */
  ghost predicate StartsOk(st: State) {
    forall t :: t in st.starts && st.starts[t].Answered? ==>
      DistinctIds(st.starts[t].list) && (st.starts[t].client, st.starts[t].list) in st.answers
  }

  /** A step keeps the invariant exactly when the start it completes, if any, is clean. */
  lemma StepExact(st: State, a: Action)
    requires Inv(st.m) && StartsOk(st) && Enabled(st, a)
    ensures Inv(Do(st, a).m) <==> StartsClean(st, a)
  {
    hide Inv, NoStaleAhead, StartCommit, DestsAre;
    match a
    case FinishStart(t, procs) =>
      if CompletesStart(st, a) {
        StartExact(st.m, st.starts[t].client, st.starts[t].list, procs);
      } else {
        FailedStartKeeps(st.m, st.starts[t].client, st.starts[t].list, procs);
      }
    case StopAll => StopKeeps(st.m);
    case Restart(id, proc, error) => RestartKeeps(st.m, id, proc, error);
    case ProcessEnds(p) => ExitKeeps(st.m, p);
    case WatcherReports(w, error) => ReportKeeps(st.m, w, error);
    case SelectClient(id) => SelectKeeps(st.m, id);
    case _ =>
  }

  lemma SelectKeeps(m: Manager, id: Id)
    requires Inv(m)
    ensures Inv(SetActiveClient(m, id).0)
  {}

  lemma StepStartsOk(st: State, a: Action)
    requires StartsOk(st) && Enabled(st, a)
    ensures StartsOk(Do(st, a))
  {
    hide StartCommit, RestartDestination, Stop, Report, Exit, SetActiveClient, DistinctIds;
  }

  ghost predicate AllStartsClean(st: State, trace: seq<Action>) {
    trace == [] ||
    (var before := Run(st, trace[..|trace| - 1]);
     AllStartsClean(st, trace[..|trace| - 1]) &&
     (Enabled(before, trace[|trace| - 1]) ==> StartsClean(before, trace[|trace| - 1])))
  }

  lemma {:induction false} EveryRunStartsOk(st: State, trace: seq<Action>)
    requires StartsOk(st)
    ensures StartsOk(Run(st, trace))
  {
    if trace != [] {
      var before := Run(st, trace[..|trace| - 1]);
      EveryRunStartsOk(st, trace[..|trace| - 1]);
      if Enabled(before, trace[|trace| - 1]) { StepStartsOk(before, trace[|trace| - 1]); }
    }
  }

  /** In every interleaving of starts, stops, restarts, exits and late reports: the whole invariant, with its clause
      that stale reports are rejected, holds all along exactly when no completing start finds a watcher ahead of the
      generations it mints. */
  lemma {:induction false} RejectsStaleExactlyWhenStartsClean(st: State, trace: seq<Action>)
    requires Inv(st.m) && StartsOk(st)
    ensures AllStartsClean(st, trace) <==> forall n :: 0 <= n <= |trace| ==> Inv(Run(st, trace[..n]).m)
  {
    hide Inv, StartsOk, Enabled, StartsClean, Do;
    if trace == [] {
      assert trace[..0] == [];
    } else {
      var k := |trace| - 1;
      var init := trace[..k];
      RejectsStaleExactlyWhenStartsClean(st, init);
      EveryRunStartsOk(st, init);
      assert forall n :: 0 <= n <= k ==> trace[..n] == init[..n];
      assert init[..k] == init && trace[..k + 1] == trace;
      var before := Run(st, init);
      if Inv(before.m) && Enabled(before, trace[k]) { StepExact(before, trace[k]); }
      assert AllStartsClean(st, trace) <==>
        (forall n :: 0 <= n <= k ==> Inv(Run(st, trace[..n]).m)) && Inv(Run(st, trace).m);
    }
  }

  // ----- A watcher that is ahead does leak -----

  lemma {:induction false} RunCons(st: State, a: Action, trace: seq<Action>)
    requires Enabled(st, a)
    ensures Run(st, [a] + trace) == Run(Do(st, a), trace)
  {
    hide Enabled, Do;
    if trace == [] {
      assert [a] + trace == [a] && [a][..0] == [];
    } else {
      var k := |trace| - 1;
      RunCons(st, a, trace[..k]);
      assert ([a] + trace)[..k + 1] == [a] + trace[..k];
    }
  }

  lemma {:induction false} BoundOf(ps: set<Proc>) returns (b: Proc)
    ensures forall p :: p in ps ==> p < b
  {
    if ps == {} {
      b := 0;
    } else {
      var x :| x in ps;
      var c := BoundOf(ps - {x});
      b := if x < c then c else x + 1;
      assert forall p :: p in ps ==> p == x || p in ps - {x};
    }
  }

  predicate NoStarts(trace: seq<Action>) {
    forall i :: 0 <= i < |trace| ==> !trace[i].FinishStart?
  }

  /** A running destination that holds a live process, and a watcher under way that is not behind it. */
  ghost predicate Threatened(m: Manager, w: Watcher) {
    && NoLeak(m) && Watched(m) && m.running
    && w in m.watchers && w.liveID in m.dests && w.proc in m.procs && m.procs[w.proc] != Alive
    && (var rt := m.dests[w.liveID];
        rt.gen <= w.gen && rt.proc.Some? && rt.proc.value in m.procs && m.procs[rt.proc.value] == Alive)
  }

  lemma OneMoreRestart(m: Manager, w: Watcher, p: Proc)
    requires Threatened(m, w) && m.dests[w.liveID].gen < w.gen && p !in m.procs
    ensures var m' := RestartDestination(m, w.liveID, Some(p), "").0;
      Threatened(m', w) && m'.dests[w.liveID].gen == m.dests[w.liveID].gen + 1
  {
    RestartNoLeak(m, w.liveID, Some(p), "");
    RestartWatched(m, w.liveID, Some(p), "");
    hide NoLeak, Watched;
  }

  /** Restarts bring a running destination up to the generation of a stale watcher; its report then makes the
      manager forget the live process. */
  lemma {:induction false} StaleWatcherLeaks(st: State, w: Watcher) returns (trace: seq<Action>)
    requires Threatened(st.m, w)
    ensures !NoLeak(Run(st, trace).m) && NoStarts(trace)
    decreases w.gen - st.m.dests[w.liveID].gen
  {
    if st.m.dests[w.liveID].gen == w.gen {
      var a := WatcherReports(w, "");
      trace := [a];
      RunCons(st, a, []);
      assert [a] + [] == [a];
      ForgottenProcess(st.m, w, "");
      hide NoLeak;
    } else {
      var unused := BoundOf(st.m.procs.Keys);
      var a := Restart(w.liveID, Some(unused), "");
      OneMoreRestart(st.m, w, unused);
      hide NoLeak, Watched, RestartDestination;
      var rest := StaleWatcherLeaks(Do(st, a), w);
      trace := [a] + rest;
      RunCons(st, a, rest);
    }
  }

  lemma ForgottenProcess(m: Manager, w: Watcher, error: string)
    requires NoLeak(m) && m.running && w.liveID in m.dests && m.dests[w.liveID].gen == w.gen
    requires m.dests[w.liveID].proc.Some? && m.dests[w.liveID].proc.value in m.procs &&
      m.procs[m.dests[w.liveID].proc.value] == Alive
    ensures !NoLeak(Report(m, w, error))
  {
    var p := m.dests[w.liveID].proc.value;
    assert p !in Held(Report(m, w, error).dests);
  }

  /** When the condition fails at a completing start, some continuation without another start leaks a process. */
  lemma UncleanStartLeaks(st: State, a: Action) returns (rest: seq<Action>)
    requires Inv(st.m) && StartsOk(st) && Enabled(st, a) && CompletesStart(st, a)
    requires !NoStaleAhead(st.m, st.starts[a.t].list)
    ensures NoStarts(rest) && !NoLeak(Run(Do(st, a), rest).m) && !NoLeak(Run(st, [a] + rest).m)
  {
    var list := st.starts[a.t].list;
    var w, k :| w in st.m.watchers && 0 <= k < |list| && list[k].liveID == w.liveID && w.gen > st.m.nextGen + k;
    StartExact(st.m, st.starts[a.t].client, list, a.procs);
    var s' := Do(st, a);
    StartKeepsOld(st.m, st.starts[a.t].client, list, a.procs, w);
    assert FromSpawn(st.m, list, a.procs, w.liveID, s'.m.dests[w.liveID]);
    hide Inv, StartCommit, NoLeak, Watched, NoStaleAhead;
    rest := StaleWatcherLeaks(s', w);
    RunCons(st, a, rest);
  }

  lemma {:induction false} NoStartsAreClean(st: State, trace: seq<Action>)
    requires NoStarts(trace)
    ensures AllStartsClean(st, trace)
  {
    if trace != [] { NoStartsAreClean(st, trace[..|trace| - 1]); }
  }

  /** So the condition is exact for what a caller cares about: a completing start is clean if and only if nothing that
      may happen before the next start leaks a process. */
  lemma StartIsSafeExactly(st: State, a: Action)
    requires Inv(st.m) && StartsOk(st) && Enabled(st, a) && CompletesStart(st, a)
    ensures NoStaleAhead(st.m, st.starts[a.t].list) <==>
      forall trace :: NoStarts(trace) ==> NoLeak(Run(Do(st, a), trace).m)
  {
    var list := st.starts[a.t].list;
    hide Enabled, Do, NoStaleAhead;
    if NoStaleAhead(st.m, list) {
      StepExact(st, a);
      StepStartsOk(st, a);
      forall trace | NoStarts(trace) ensures NoLeak(Run(Do(st, a), trace).m) {
        NoStartsAreClean(Do(st, a), trace);
        RejectsStaleExactlyWhenStartsClean(Do(st, a), trace);
        assert trace[..|trace|] == trace;
      }
    } else {
      var rest := UncleanStartLeaks(st, a);
    }
  }

  const NEW := State(Manager(None, false, map[], 0, map[], {}), map[], {})

  lemma Then(st: State, trace: seq<Action>, a: Action) returns (longer: seq<Action>)
    requires Enabled(Run(st, trace), a)
    ensures longer == trace + [a] && Run(st, longer) == Do(Run(st, trace), a)
  {
    longer := trace + [a];
    hide Enabled, Do;
    assert longer[..|trace|] == trace;
  }

  /** One start, alone, of one destination. */
  lemma StartOne(trace: seq<Action>, client: Id, d: Destination, p: Proc) returns (longer: seq<Action>)
    requires var st := Run(NEW, trace);
      !st.m.running && st.m.client == Some(client) && st.starts == map[] && p !in st.m.procs
    ensures var m, st' := Run(NEW, trace).m, Run(NEW, longer);
      && st'.starts == map[]
      && st'.m == m.(client := Some(client), running := true, nextGen := m.nextGen + 1,
                     dests := map[d.liveID := Runtime(d, Connected, "", Some(p), m.nextGen + 1)],
                     procs := m.procs[p := Alive],
                     watchers := m.watchers + {Watcher(d.liveID, m.nextGen + 1, p)})
  {
    hide Run;
    var m0 := Run(NEW, trace).m.(dests := map[]);
    longer := Then(NEW, trace, BeginStart(0));
    longer := Then(NEW, longer, Answer(0, [d]));
    assert [p][..0] == [] && SpawnAll(m0, [d], []) == m0 && SpawnAll(m0, [d], [p]) == Spawn(m0, d, p);
    hide SpawnAll, KillAll;
    longer := Then(NEW, longer, FinishStart(0, [p]));
  }

  /** A restart and a stop leave the watcher of the restarted process under way, one generation ahead. */
  lemma RestartAndStop(trace: seq<Action>, d: Destination, p: Proc, q: Proc) returns (longer: seq<Action>)
    requires p != q && Run(NEW, trace).starts == map[]
    requires var m := Run(NEW, trace).m;
      && m.running && m.dests == map[d.liveID := Runtime(d, Connected, "", Some(p), 1)]
      && m.procs == map[p := Alive] && m.nextGen == 1
    ensures var m, st' := Run(NEW, trace).m, Run(NEW, longer);
      && st'.starts == map[] && !st'.m.running && st'.m.client == m.client && st'.m.nextGen == 1
      && st'.m.procs == map[p := Killed, q := Killed] && Watcher(d.liveID, 2, q) in st'.m.watchers
  {
    hide Run;
    longer := Then(NEW, trace, Restart(d.liveID, Some(q), ""));
    assert Run(NEW, longer).m.procs == map[p := Killed, q := Alive];
    longer := Then(NEW, longer, StopAll);
    assert Run(NEW, longer).m.procs == map[p := Killed, q := Killed];
  }

  /** Started again before the watcher of the restarted process has reported, the manager mints the generation that
      this watcher carries. */
  lemma StartedAgain(client: Id, d: Destination, p: Proc, q: Proc, r: Proc) returns (trace: seq<Action>)
    requires p != q && q != r && p != r
    ensures var m := Run(NEW, trace).m;
      && m.running && m.dests == map[d.liveID := Runtime(d, Connected, "", Some(r), 2)]
      && m.procs == map[p := Killed, q := Killed, r := Alive]
      && Watcher(d.liveID, 2, q) in m.watchers
  {
    trace := [];
    assert Run(NEW, []) == NEW;
    hide Run;
    trace := Then(NEW, trace, SelectClient(client));
    trace := StartOne(trace, client, d, p);
    trace := RestartAndStop(trace, d, p, q);
    trace := StartOne(trace, client, d, r);
  }

  /** So the leak is reachable from a new manager, for any client and destination: when that watcher reports, the
      manager forgets the process of the new start, which stays alive even after a stop. */
  lemma LeakIsReachable(client: Id, d: Destination, p: Proc, q: Proc, r: Proc) returns (trace: seq<Action>)
    requires p != q && q != r && p != r
    ensures var m := Run(NEW, trace).m; !m.running && r in m.procs && m.procs[r] == Alive && !NoLeak(m)
  {
    trace := StartedAgain(client, d, p, q, r);
    hide Run;
    trace := Then(NEW, trace, WatcherReports(Watcher(d.liveID, 2, q), ""));
    trace := Then(NEW, trace, StopAll);
    assert r !in Held(Run(NEW, trace).m.dests);
  }

  /** A completing start leaves older watchers under way, and their processes as dead as they were. */
  lemma StartKeepsOld(m: Manager, client: Id, list: seq<Destination>, procs: seq<Proc>, w: Watcher)
    requires Inv(m) && !m.running && m.client == Some(client) && |procs| == |list| && FreshProcs(m, procs) &&
      w in m.watchers
    ensures var m' := StartCommit(m, client, list, procs).0;
      && w in m'.watchers && w.proc in m'.procs && m'.procs[w.proc] != Alive
      && (forall p :: p in procs ==> p in m'.procs && m'.procs[p] == Alive)
  {
    var m0 := m.(dests := map[]);
    SpawnedLedger(m0, list, procs);
    SpawnedWatchers(m0, list, procs);
    assert Held(m.dests) == {};
    hide SpawnAll;
  }
}
