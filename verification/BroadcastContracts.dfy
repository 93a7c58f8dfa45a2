/** Every section of the broadcast manager by its guards: the answer, and each field, destination, process and
    watcher. */
module BroadcastContracts {
  import opened Options
  import opened Broadcast
  import Safety = BroadcastSafety

  lemma SelectExact(m: Manager, id: Id)
    ensures var (m', r) := SetActiveClient(m, id);
      if m.running then m' == m && r == Err(ClientSwitchWhileBroadcasting)
      else m' == m.(client := Some(id)) && r == Ok
  {}

  // ----- Start -----

  /** A watcher of the k-th process started, for some k, under the generation that spawn was given. */
  predicate WatchesStarted(m: Manager, list: seq<Destination>, procs: seq<Proc>, w: Watcher)
    requires |procs| <= |list|
  {
    var k := w.gen - m.nextGen - 1;
    0 <= k < |procs| && w.liveID == list[k].liveID && w.proc == procs[k]
  }

  /** What the spawns leave: the counter has moved once for each, the new processes are in this state, the older ones as
      they were, and each is watched. */
  ghost predicate Started(m: Manager, m': Manager, list: seq<Destination>, procs: seq<Proc>, life: Life)
    requires |procs| <= |list|
  {
    && m'.client == m.client && m'.nextGen == m.nextGen + |procs|
    && (forall p :: p in m'.procs <==> p in m.procs || p in procs)
    && (forall p :: p in m'.procs ==> m'.procs[p] == if p in procs then life else m.procs[p])
    && (forall w :: w in m'.watchers <==> w in m.watchers || WatchesStarted(m, list, procs, w))
  }

  /** The k-th destination of the list, connected to the k-th process. */
  predicate Connects(m: Manager, dests: map<Id, Runtime>, list: seq<Destination>, procs: seq<Proc>, k: nat)
    requires k < |procs| <= |list|
  {
    && list[k].liveID in dests
    && dests[list[k].liveID] == Runtime(list[k], Connected, "", Some(procs[k]), m.nextGen + k + 1)
  }

  predicate Listed(list: seq<Destination>, id: Id) { exists k :: 0 <= k < |list| && list[k].liveID == id }

  /** Each answer of the second section of a start. A start that completes connects every listed destination, and no
      other, to its process; one whose next spawn fails leaves no destination, and its processes killed. */
  lemma StartExact(m: Manager, client: Id, list: seq<Destination>, procs: seq<Proc>)
    requires |procs| <= |list| && DistinctIds(list)
    ensures var (m', r) := StartCommit(m, client, list, procs);
      if m.running then m' == m && r == Ok
      else if m.client != Some(client) then m' == m && r == Err(NoActiveClient)
      else if |procs| < |list|
      then r == Err(SpawnFailed) && !m'.running && m'.dests == map[] && Started(m, m', list, procs, Killed)
      else
        && r == Ok && m'.running && Started(m, m', list, procs, Alive)
        && (forall id :: id in m'.dests <==> Listed(list, id))
        && (forall k :: 0 <= k < |list| ==> Connects(m, m'.dests, list, procs, k))
  {
    if !m.running && m.client == Some(client) {
      SpawnsExact(m, list, procs);
      if |procs| < |list| {
        Safety.FailedStartIsClean(m, client, list, procs);
        KillAllKeeps(SpawnAll(m.(dests := map[]), list, procs));
        hide SpawnAll, DistinctIds, KillAll, WatchesStarted;
      } else {
        DestsExact(m, list, procs);
        RunningStarted(m, SpawnAll(m.(dests := map[]), list, procs), list, procs);
        hide SpawnAll, DistinctIds, Started, Connects, Listed;
      }
    }
  }

  lemma RunningStarted(m: Manager, m1: Manager, list: seq<Destination>, procs: seq<Proc>)
    requires |procs| <= |list| && Started(m, m1, list, procs, Alive)
    ensures Started(m, m1.(running := true), list, procs, Alive)
  {
    hide WatchesStarted;
  }

  lemma KillAllKeeps(m: Manager)
    ensures var m' := KillAll(m); m'.nextGen == m.nextGen && m'.watchers == m.watchers && m'.client == m.client
  {}

  lemma SpawnsExact(m: Manager, list: seq<Destination>, procs: seq<Proc>)
    requires |procs| <= |list| && DistinctIds(list)
    ensures Started(m, SpawnAll(m.(dests := map[]), list, procs), list, procs, Alive)
  {
    Safety.SpawnsKeepRest(m.(dests := map[]), list, procs);
    Safety.SpawnedTables(m, list, procs);
    hide SpawnAll, DistinctIds, Safety.DestsAre;
  }

  lemma DestsExact(m: Manager, list: seq<Destination>, procs: seq<Proc>)
    requires |procs| == |list| && DistinctIds(list)
    ensures var dests := SpawnAll(m.(dests := map[]), list, procs).dests;
      && (forall id :: id in dests <==> Listed(list, id))
      && (forall k :: 0 <= k < |list| ==> Connects(m, dests, list, procs, k))
  {
    Safety.SpawnedTables(m, list, procs);
    var dests := SpawnAll(m.(dests := map[]), list, procs).dests;
    hide SpawnAll, Safety.LedgerIs, Safety.WatchersAre, Listed, Connects;
    forall k | 0 <= k < |list| ensures Connects(m, dests, list, procs, k) { DestConnects(m, dests, list, procs, k); }
    forall id ensures id in dests <==> Listed(list, id) { DestListed(m, dests, list, procs, id); }
    hide Safety.DestsAre, DistinctIds;
  }

  lemma DestConnects(m: Manager, dests: map<Id, Runtime>, list: seq<Destination>, procs: seq<Proc>, k: nat)
    requires |procs| == |list| && DistinctIds(list) && Safety.DestsAre(m, list, procs, dests) && k < |list|
    ensures Connects(m, dests, list, procs, k)
  {
    assert Safety.FromSpawn(m, list, procs, list[k].liveID, dests[list[k].liveID]);
  }

  lemma DestListed(m: Manager, dests: map<Id, Runtime>, list: seq<Destination>, procs: seq<Proc>, id: Id)
    requires |procs| == |list| && Safety.DestsAre(m, list, procs, dests)
    ensures id in dests <==> Listed(list, id)
  {
    if id in dests { assert Safety.FromSpawn(m, list, procs, id, dests[id]); }
  }

  // ----- Stop -----

  predicate HeldSomewhere(m: Manager, p: Proc) {
    exists id :: id in m.dests && m.dests[id].proc == Some(p)
  }

  lemma StopExact(m: Manager)
    ensures var m' := Stop(m);
      if !m.running then m' == m
      else
        && m' == m.(running := false, dests := m'.dests, procs := m'.procs)
        && m'.dests.Keys == m.dests.Keys
        && (forall id :: id in m.dests ==>
              m'.dests[id] == Runtime(m.dests[id].dest, Stopped, "", None, m.dests[id].gen + 1))
        && m'.procs.Keys == m.procs.Keys
        && (forall p :: p in m.procs ==>
              m'.procs[p] == if HeldSomewhere(m, p) && m.procs[p] == Alive then Killed else m.procs[p])
  {
    assert forall p :: p in Held(m.dests) <==> HeldSomewhere(m, p);
  }

  // ----- Restart -----

  /** The answer of a restart: accepted exactly when the manager runs, knows the destination and the runner starts the
      process; otherwise the first of these that fails decides the error. */
  lemma RestartAnswer(m: Manager, id: Id, proc: Option<Proc>, error: string)
    ensures var r := RestartDestination(m, id, proc, error).1;
      && (r == Ok <==> m.running && id in m.dests && proc.Some?)
      && (r == Err(BroadcastStopped) <==> !m.running)
      && (r == Err(DestinationNotFound) <==> m.running && id !in m.dests)
      && (r == Err(SpawnFailed) <==> m.running && id in m.dests && proc.None?)
  {}

  /** What a restart does. The two early refusals change nothing. Otherwise the old process is killed if it lives, the
      destination moves to its next generation, and it holds the new process without an error text, or none, failed,
      with the runner's text; nothing else changes. */
  lemma RestartEffect(m: Manager, id: Id, proc: Option<Proc>, error: string)
    requires proc.Some? ==> proc.value !in m.procs
    ensures var (m', r) := RestartDestination(m, id, proc, error);
      if r == Err(BroadcastStopped) || r == Err(DestinationNotFound) then m' == m
      else
        && id in m.dests && id in m'.dests
        && m' == m.(dests := m.dests[id := m'.dests[id]], procs := m'.procs, watchers := m'.watchers)
        && m'.dests[id] == (if r == Ok then Runtime(m.dests[id].dest, Connected, "", proc, m.dests[id].gen + 1)
                            else Runtime(m.dests[id].dest, Failed, error, None, m.dests[id].gen + 1))
        && (forall p :: p in m'.procs <==> p in m.procs || Some(p) == proc)
        && (forall p :: p in m'.procs ==>
              m'.procs[p] == if Some(p) == proc then Alive
                             else if m.dests[id].proc == Some(p) && m.procs[p] == Alive then Killed else m.procs[p])
        && m'.watchers == (if r == Ok then m.watchers + {Watcher(id, m.dests[id].gen + 1, proc.value)} else m.watchers)
  {}

  // ----- Watchers -----

  /** A report is taken while running at a destination of its generation, and only noted off otherwise. */
  lemma ReportExact(m: Manager, w: Watcher, error: string)
    ensures var m' := Report(m, w, error);
      && m' == m.(watchers := m.watchers - {w}, dests := m'.dests)
      && m'.dests.Keys == m.dests.Keys
      && (forall id :: id in m.dests ==>
            m'.dests[id] == if m.running && id == w.liveID && m.dests[id].gen == w.gen
                            then Runtime(m.dests[id].dest, Failed, error, None, m.dests[id].gen) else m.dests[id])
  {}

  /** A process that ends on its own is seen to have exited, unless it had been killed or had ended before. */
  lemma ExitExact(m: Manager, p: Proc)
    ensures var m' := Exit(m, p);
      && m' == m.(procs := m'.procs) && m'.procs.Keys == m.procs.Keys
      && (forall q :: q in m.procs ==> m'.procs[q] == if q == p && m.procs[q] == Alive then Exited else m.procs[q])
  {}

  // ----- What may happen when -----

  /** A client can be selected, everything stopped, any process end, and any destination be restarted with a new process
      or none, at any time; a watcher reports once its process has ended, and not before. */
  lemma AlwaysPossible(st: State, id: Id, p: Proc, w: Watcher, proc: Option<Proc>, error: string)
    ensures Enabled(st, SelectClient(id)) && Enabled(st, StopAll) && Enabled(st, ProcessEnds(p))
    ensures Enabled(st, Restart(id, proc, error)) <==> (proc.Some? ==> proc.value !in st.m.procs)
    ensures Enabled(st, WatcherReports(w, error)) <==>
      w in st.m.watchers && w.proc in st.m.procs && st.m.procs[w.proc] != Alive
  {
    assert proc.Some? ==> (forall q :: q in [proc.value] <==> q == proc.value);
  }

  /** A start asks for the client it reads, keeps that and what it is answered, and leaves when it commits or gives up;
      between these it changes nothing else. */
  lemma StartSteps(st: State, t: nat, list: seq<Destination>, procs: seq<Proc>)
    ensures Enabled(st, BeginStart(t)) ==>
      && st.m.client.Some? && !st.m.running
      && Do(st, BeginStart(t)) == st.(starts := st.starts[t := Asked(st.m.client.value)])
    ensures Enabled(st, Answer(t, list)) ==>
      && t in st.starts && Do(st, Answer(t, list)).m == st.m
      && Do(st, Answer(t, list)).starts == st.starts[t := Answered(st.starts[t].client, list)]
    ensures Enabled(st, GiveUp(t)) ==> Do(st, GiveUp(t)) == st.(starts := st.starts - {t})
    ensures Enabled(st, FinishStart(t, procs)) ==>
      && t in st.starts && st.starts[t].Answered? && |procs| <= |st.starts[t].list|
      && Do(st, FinishStart(t, procs)).starts == st.starts - {t}
      && Do(st, FinishStart(t, procs)).m == StartCommit(st.m, st.starts[t].client, st.starts[t].list, procs).0
  {
    hide StartCommit, DistinctIds, FreshProcs;
  }

  /** The other actions are their sections. */
  lemma OtherSteps(st: State, a: Action)
    requires Enabled(st, a) && !a.BeginStart? && !a.Answer? && !a.GiveUp? && !a.FinishStart?
    ensures Do(st, a) == st.(m :=
      match a
      case SelectClient(id) => SetActiveClient(st.m, id).0
      case StopAll => Stop(st.m)
      case Restart(id, proc, error) => RestartDestination(st.m, id, proc, error).0
      case ProcessEnds(p) => Exit(st.m, p)
      case WatcherReports(w, error) => Report(st.m, w, error))
  {
    hide SetActiveClient, Stop, RestartDestination, Exit, Report;
  }
}
