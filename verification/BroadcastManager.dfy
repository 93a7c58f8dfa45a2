/** The broadcast manager in place: the fields the source keeps behind its mutex, changed step by step, against the
    sections of the state machine. The runner's processes and the watcher goroutines are the ghost ledger. */
module BroadcastManager {
  import opened Options
  import opened Broadcast
  import Safety = BroadcastSafety

  // ----- The kill loop, with the destinations in `rest` still to be visited -----

  ghost function Halted(ds: map<Id, Runtime>, rest: set<Id>): map<Id, Runtime> {
    map id | id in ds :: if id in rest then ds[id] else Halt(ds[id])
  }

  ghost function HeldBy(ds: map<Id, Runtime>, rest: set<Id>): set<Proc> {
    set id | id in ds && id !in rest && ds[id].proc.Some? :: ds[id].proc.value
  }

  lemma HaltOne(ds: map<Id, Runtime>, rest: set<Id>, id: Id)
    requires id in rest && rest <= ds.Keys
    ensures Halted(ds, rest)[id] == ds[id]
    ensures Halted(ds, rest - {id}) == Halted(ds, rest)[id := Halt(ds[id])]
  {
  }

  lemma KillOne(procs: map<Proc, Life>, ds: map<Id, Runtime>, rest: set<Id>, id: Id)
    requires id in rest && rest <= ds.Keys
    ensures KillIn(procs, HeldBy(ds, rest - {id})) ==
            if ds[id].proc.Some? then KillIn(KillIn(procs, HeldBy(ds, rest)), {ds[id].proc.value})
            else KillIn(procs, HeldBy(ds, rest))
  {
    var one := if ds[id].proc.Some? then {ds[id].proc.value} else {};
    assert HeldBy(ds, rest - {id}) == HeldBy(ds, rest) + one;
  }

  class RelayManager {
    var client: Option<Id>
    var running: bool
    var dests: map<Id, Runtime>
    var nextGen: nat
    ghost var procs: map<Proc, Life>
    ghost var watchers: set<Watcher>

    ghost function View(): Manager
      reads this
    {
      Manager(client, running, dests, nextGen, procs, watchers)
    }

    constructor ()
      ensures View() == Manager(None, false, map[], 0, map[], {}) && Inv(View())
    {
      client, running, dests, nextGen, procs, watchers := None, false, map[], 0, map[], {};
    }

    method SelectClient(id: Id) returns (r: Outcome)
      modifies this
      ensures (View(), r) == SetActiveClient(old(View()), id)
    {
      if running {
        return Err(ClientSwitchWhileBroadcasting);
      }
      if client != Some(id) {
        client := Some(id);
      }
      r := Ok;
    }

    /** First section of Start: the client it will ask the provider about, or why it stops here. */
    method BeginStart() returns (r: Outcome, clientID: Option<Id>)
      ensures clientID == if running then None else client
      ensures r == if running || client.Some? then Ok else Err(NoActiveClient)
    {
      if running {
        return Ok, None;
      }
      if client.None? {
        return Err(NoActiveClient), None;
      }
      r, clientID := Ok, client;
    }

    /** Second section of Start, with the processes the runner starts; one too few means that the next one fails. */
    method FinishStart(clientID: Id, list: seq<Destination>, started: seq<Proc>) returns (r: Outcome)
      requires |started| <= |list|
      modifies this
      ensures (View(), r) == StartCommit(old(View()), clientID, list, started)
    {
      if running {
        return Ok;
      }
      if client.None? || client.value != clientID {
        return Err(NoActiveClient);
      }
      dests := map[];
      ghost var empty := View();
      var i := 0;
      while i < |list|
        invariant i <= |started|
        invariant View() == SpawnAll(empty, list, started[..i])
      {
        if i == |started| {
          assert started[..i] == started;
          KillAllLocked();
          dests := map[];
          return Err(SpawnFailed);
        }
        SpawnLocked(list[i], started[i]);
        assert started[..i + 1][..i] == started[..i];
        i := i + 1;
      }
      assert started[..i] == started;
      running := true;
      r := Ok;
    }

    method SpawnLocked(d: Destination, p: Proc)
      modifies this
      ensures View() == Spawn(old(View()), d, p)
    {
      procs := procs[p := Alive];
      nextGen := nextGen + 1;
      dests := dests[d.liveID := Runtime(d, Connected, "", Some(p), nextGen)];
      watchers := watchers + {Watcher(d.liveID, nextGen, p)};
    }

    method KillAllLocked()
      modifies this
      ensures View() == KillAll(old(View()))
    {
      var rest := dests.Keys;
      while rest != {}
        invariant rest <= old(dests).Keys
        invariant dests == Halted(old(dests), rest)
        invariant procs == KillIn(old(procs), HeldBy(old(dests), rest))
        invariant View() == old(View()).(dests := dests, procs := procs)
        decreases rest
      {
        var id :| id in rest;
        HaltOne(old(dests), rest, id);
        KillOne(old(procs), old(dests), rest, id);
        var rt := dests[id];
        if rt.proc.Some? {
          procs := KillIn(procs, {rt.proc.value});
        }
        dests := dests[id := rt.(proc := None, gen := rt.gen + 1, state := Stopped, lastError := "")];
        rest := rest - {id};
      }
      assert HeldBy(old(dests), {}) == Held(old(dests));
      assert Halted(old(dests), {}) == map id | id in old(dests) :: Halt(old(dests)[id]);
    }

    method StopAll()
      modifies this
      ensures View() == Stop(old(View()))
      ensures Inv(old(View())) ==> Inv(View()) && !running && forall p :: p in procs ==> procs[p] != Alive
    {
      if Inv(View()) { Safety.StopKeeps(View()); }
      if !running {
        return;
      }
      KillAllLocked();
      running := false;
    }

    /** Restart of one destination; `started` is the new process, or none with the runner's error. */
    method Restart(id: Id, started: Option<Proc>, error: string) returns (r: Outcome)
      modifies this
      ensures (View(), r) == RestartDestination(old(View()), id, started, error)
    {
      if !running {
        return Err(BroadcastStopped);
      }
      if id !in dests {
        return Err(DestinationNotFound);
      }
      var rt := dests[id];
      if rt.proc.Some? {
        procs := KillIn(procs, {rt.proc.value});
        rt := rt.(proc := None);
      }
      rt := rt.(gen := rt.gen + 1);
      if started.None? {
        dests := dests[id := rt.(state := Failed, lastError := error)];
        return Err(SpawnFailed);
      }
      procs := procs[started.value := Alive];
      dests := dests[id := rt.(proc := started, state := Connected, lastError := "")];
      watchers := watchers + {Watcher(id, rt.gen, started.value)};
      r := Ok;
    }

    /** The section of a watcher whose process has ended. */
    method ReportExit(w: Watcher, error: string)
      modifies this
      ensures View() == Report(old(View()), w, error)
    {
      watchers := watchers - {w};
      if w.liveID !in dests || dests[w.liveID].gen != w.gen {
        return;
      }
      if !running {
        return;
      }
      dests := dests[w.liveID := dests[w.liveID].(proc := None, state := Failed, lastError := error)];
    }
  }
}
