/** The broadcast manager: one relay process per destination, watcher callbacks that arrive late, a start in two
    sections, restarts, and the ledger of every process that was ever started. */
module Broadcast {
  import opened Options

  type Id = nat
  type Proc = nat

  datatype Destination = Destination(liveID: Id, platform: string, pushURL: string)

  datatype DestState = Connected | Failed | Stopped

  datatype Runtime = Runtime(dest: Destination, state: DestState, lastError: string, proc: Option<Proc>, gen: nat)

  datatype Life = Alive | Exited | Killed

  /** A watcher that waits for its process to end and has not reported yet. */
  datatype Watcher = Watcher(liveID: Id, gen: nat, proc: Proc)

  /** The manager's fields, the ledger of processes and the watchers under way. */
  datatype Manager = Manager(
    client: Option<Id>,
    running: bool,
    dests: map<Id, Runtime>,
    nextGen: nat,
    procs: map<Proc, Life>,
    watchers: set<Watcher>)

  datatype Error = NoActiveClient | ClientSwitchWhileBroadcasting | BroadcastStopped | DestinationNotFound | SpawnFailed

  datatype Outcome = Ok | Err(error: Error)

  // ----- Sections -----

  function SetActiveClient(m: Manager, id: Id): (Manager, Outcome) {
    if m.running then (m, Err(ClientSwitchWhileBroadcasting)) else (m.(client := Some(id)), Ok)
  }

  /** Killing a process that has already ended changes nothing. */
  function KillIn(procs: map<Proc, Life>, dead: set<Proc>): map<Proc, Life> {
    map p | p in procs :: if p in dead && procs[p] == Alive then Killed else procs[p]
  }

  function Held(dests: map<Id, Runtime>): set<Proc> {
    set id | id in dests && dests[id].proc.Some? :: dests[id].proc.value
  }

  function Halt(rt: Runtime): Runtime {
    rt.(proc := None, gen := rt.gen + 1, state := Stopped, lastError := "")
  }

  function KillAll(m: Manager): Manager {
    m.(dests := map id | id in m.dests :: Halt(m.dests[id]), procs := KillIn(m.procs, Held(m.dests)))
  }

  /** spawnLocked when the process starts: the generation is minted from the manager's counter. */
  function Spawn(m: Manager, d: Destination, p: Proc): Manager {
    var gen := m.nextGen + 1;
    m.(nextGen := gen,
       dests := m.dests[d.liveID := Runtime(d, Connected, "", Some(p), gen)],
       procs := m.procs[p := Alive],
       watchers := m.watchers + {Watcher(d.liveID, gen, p)})
  }

  /** The spawn loop of Start, one process for each destination in turn. */
  function SpawnAll(m: Manager, list: seq<Destination>, procs: seq<Proc>): Manager
    requires |procs| <= |list|
  {
    if procs == [] then m
    else Spawn(SpawnAll(m, list, procs[..|procs| - 1]), list[|procs| - 1], procs[|procs| - 1])
  }

  /** Second section of Start for the client read in the first. `procs` are the processes that start; when there
      are fewer than destinations, the next spawn fails and everything is rolled back. */
  function StartCommit(m: Manager, client: Id, list: seq<Destination>, procs: seq<Proc>): (Manager, Outcome)
    requires |procs| <= |list|
  {
    if m.running then (m, Ok)
    else if m.client != Some(client) then (m, Err(NoActiveClient))
    else
      var m' := SpawnAll(m.(dests := map[]), list, procs);
      if |procs| < |list| then (KillAll(m').(dests := map[]), Err(SpawnFailed)) else (m'.(running := true), Ok)
  }

  function Stop(m: Manager): Manager {
    if !m.running then m else KillAll(m).(running := false)
  }

  /** The generation of a restart is the destination's next one; the manager's counter does not move. */
  function RestartDestination(m: Manager, id: Id, proc: Option<Proc>, error: string): (Manager, Outcome) {
    if !m.running then (m, Err(BroadcastStopped))
    else if id !in m.dests then (m, Err(DestinationNotFound))
    else
      var rt := m.dests[id];
      var killed := m.(procs := if rt.proc.Some? then KillIn(m.procs, {rt.proc.value}) else m.procs);
      match proc
      case None =>
        var rt' := rt.(proc := None, gen := rt.gen + 1, state := Failed, lastError := error);
        (killed.(dests := m.dests[id := rt']), Err(SpawnFailed))
      case Some(p) =>
        (killed.(dests := m.dests[id := rt.(proc := Some(p), gen := rt.gen + 1, state := Connected, lastError := "")],
                 procs := killed.procs[p := Alive],
                 watchers := m.watchers + {Watcher(id, rt.gen + 1, p)}), Ok)
  }

  /** A watcher whose process has ended reports; a report for another generation, or while stopped, is dropped. */
  function Report(m: Manager, w: Watcher, error: string): Manager {
    var m' := m.(watchers := m.watchers - {w});
    if w.liveID !in m.dests || m.dests[w.liveID].gen != w.gen || !m.running then m'
    else m'.(dests := m.dests[w.liveID := m.dests[w.liveID].(proc := None, state := Failed, lastError := error)])
  }

  function Exit(m: Manager, p: Proc): Manager {
    if p in m.procs && m.procs[p] == Alive then m.(procs := m.procs[p := Exited]) else m
  }

  // ----- Interleavings -----

  /** A Start between its two sections: the client it read, then what the provider answered for it. */
  datatype Starting = Asked(client: Id) | Answered(client: Id, list: seq<Destination>)

  datatype State = State(m: Manager, starts: map<nat, Starting>, answers: set<(Id, seq<Destination>)>)

  datatype Action =
    | SelectClient(id: Id)
    | BeginStart(t: nat)
    | Answer(t: nat, list: seq<Destination>)
    | GiveUp(t: nat)
    | FinishStart(t: nat, procs: seq<Proc>)
    | StopAll
    | Restart(id: Id, proc: Option<Proc>, error: string)
    | ProcessEnds(p: Proc)
    | WatcherReports(w: Watcher, error: string)

  /** Processes get handles that were never used. */
  predicate FreshProcs(m: Manager, procs: seq<Proc>) {
    && (forall p :: p in procs ==> p !in m.procs)
    && (forall i, j :: 0 <= i < j < |procs| ==> procs[i] != procs[j])
  }

  /** Live ids are primary keys. */
  predicate DistinctIds(list: seq<Destination>) {
    forall i, j :: 0 <= i < j < |list| ==> list[i].liveID != list[j].liveID
  }

  predicate Enabled(st: State, a: Action) {
    match a
    case SelectClient(_) => true
    case BeginStart(t) => t !in st.starts && !st.m.running && st.m.client.Some?
    case Answer(t, list) => t in st.starts && st.starts[t].Asked? && list != [] && DistinctIds(list)
    case GiveUp(t) => t in st.starts
    case FinishStart(t, procs) =>
      t in st.starts && st.starts[t].Answered? && |procs| <= |st.starts[t].list| && FreshProcs(st.m, procs)
    case StopAll => true
    case Restart(_, proc, _) => proc.Some? ==> FreshProcs(st.m, [proc.value])
    case ProcessEnds(_) => true
    case WatcherReports(w, _) => w in st.m.watchers && w.proc in st.m.procs && st.m.procs[w.proc] != Alive
  }

  function Do(st: State, a: Action): State
    requires Enabled(st, a)
  {
    match a
    case SelectClient(id) => st.(m := SetActiveClient(st.m, id).0)
    case BeginStart(t) => st.(starts := st.starts[t := Asked(st.m.client.value)])
    case Answer(t, list) =>
      var c := st.starts[t].client;
      st.(starts := st.starts[t := Answered(c, list)], answers := st.answers + {(c, list)})
    case GiveUp(t) => st.(starts := st.starts - {t})
    case FinishStart(t, procs) =>
      st.(m := StartCommit(st.m, st.starts[t].client, st.starts[t].list, procs).0, starts := st.starts - {t})
    case StopAll => st.(m := Stop(st.m))
    case Restart(id, proc, error) => st.(m := RestartDestination(st.m, id, proc, error).0)
    case ProcessEnds(p) => st.(m := Exit(st.m, p))
    case WatcherReports(w, error) => st.(m := Report(st.m, w, error))
  }

  function Run(st: State, trace: seq<Action>): State {
    if trace == [] then st
    else
      var before := Run(st, trace[..|trace| - 1]);
      if Enabled(before, trace[|trace| - 1]) then Do(before, trace[|trace| - 1]) else before
  }

  // ----- What every interleaving keeps -----

  /** Every live process is held, and no two destinations hold the same one. */
  ghost predicate NoLeak(m: Manager) {
    && (forall p :: p in m.procs && m.procs[p] == Alive ==> p in Held(m.dests))
    && (forall a, b :: a in m.dests && b in m.dests && m.dests[a].proc.Some? && m.dests[a].proc == m.dests[b].proc ==>
         a == b)
  }

  /** The status shown for each destination is what its process is. */
  ghost predicate StatusTruthful(m: Manager) {
    forall id :: id in m.dests ==>
      if m.running
      then (m.dests[id].state == Connected <==> m.dests[id].proc.Some?) &&
           (m.dests[id].state == Failed <==> m.dests[id].proc.None?)
      else m.dests[id].proc.None? && m.dests[id].state == Stopped
  }

  /** Watchers know real processes, one each; a held process is still watched, under the destination's generation. */
  ghost predicate Watched(m: Manager) {
    && (forall w :: w in m.watchers ==> w.proc in m.procs)
    && (forall v, w :: v in m.watchers && w in m.watchers && v.proc == w.proc ==> v == w)
    && (forall id :: id in m.dests && m.dests[id].proc.Some? ==>
          m.dests[id].proc.value in m.procs && Watcher(id, m.dests[id].gen, m.dests[id].proc.value) in m.watchers)
  }

  /** While running, no watcher is ahead of its destination, and one of the same generation watches the process held. */
  ghost predicate GenerationsReject(m: Manager) {
    m.running ==> forall w :: w in m.watchers && w.liveID in m.dests ==>
      w.gen <= m.dests[w.liveID].gen &&
      (w.gen == m.dests[w.liveID].gen ==> m.dests[w.liveID].proc == Some(w.proc))
  }

  ghost predicate Inv(m: Manager) {
    NoLeak(m) && StatusTruthful(m) && Watched(m) && GenerationsReject(m)
  }

  /** No watcher under way carries a generation its destination is about to get, or a later one. */
  ghost predicate NoStaleAhead(m: Manager, list: seq<Destination>) {
    forall w, k :: w in m.watchers && 0 <= k < |list| && list[k].liveID == w.liveID ==> w.gen <= m.nextGen + k
  }
}
