/** No interleaving gets stuck: every thread can finish its operation, and can fail wherever a call may fail. */
module Progress {
  import opened Options
  import opened Model
  import opened Sections
  import opened Invariants
  import opened Interleaved

  type Trace = seq<(nat, Action)>

  /** Wherever the next OBS call can end the operation, it can: the thread is idle again and nothing else has
      changed. */
  lemma FailingCallEnds(st: State, t: nat)
    requires var l := At(st, t);
      l.Creating? || l.Assigning? || l.SettingAudio? || l.CuttingCamera? || l.CuttingScene?
    ensures Enabled(st, t, Abort)
    ensures Do(st, t, Abort) == st.(locals := st.locals[t := Idle])
  {}

  /** A call that fails and is only logged lets the operation go on. */
  lemma FailingCallIsLogged(st: State, t: nat)
    ensures At(st, t) == CuttingAudio(AtCid(st, t), AtPrev(st, t)) ==>
      Enabled(st, t, CutAudioFails) &&
        Do(st, t, CutAudioFails) == st.(locals := st.locals[t := CameraOnAir(AtCid(st, t))])
    ensures At(st, t).Deleting? ==>
      Enabled(st, t, DeleteInput(false)) &&
      Do(st, t, DeleteInput(false)) == st.(locals := st.locals[t := DeletedInput(At(st, t).pid)])
    ensures At(st, t).LostName? ==>
      Enabled(st, t, CreateCleanup(false)) && Do(st, t, CreateCleanup(false)) == st.(locals := st.locals[t := Idle])
  {}

  function AtCid(st: State, t: nat): string { if At(st, t).CuttingAudio? then At(st, t).cid else "" }

  function AtPrev(st: State, t: nat): string { if At(st, t).CuttingAudio? then At(st, t).prev else "" }

  /** How many sections the thread has still to take, at most. */
  function Left(l: Local): nat {
    match l
    case Idle => 0
    case Creating(_, _) => 3
    case CreatedInput(_, _) => 2
    case LostName(_) => 1
    case Deleting(_) => 2
    case DeletedInput(_) => 1
    case Assigning(_, _) => 1
    case Unassigning(_) => 1
    case SettingAudio(_, _) => 1
    case Hiding => 5
    case Cutting => 4
    case CuttingCamera(_) => 3
    case CuttingAudio(_, _) => 2
    case CameraOnAir(_) => 1
    case CuttingScene(_) => 1
    case Pruning(_) => 1
  }

  /** The next step of a thread whose calls succeed. */
  ghost function Next(st: State, t: nat): Action
    requires !At(st, t).Idle?
  {
    match At(st, t)
    case Creating(_, _) => CreateInput(true)
    case CreatedInput(_, _) => CreateFinish(true)
    case LostName(_) => CreateCleanup(true)
    case Deleting(_) => DeleteInput(true)
    case DeletedInput(_) => DeleteFinish(true)
    case Assigning(pid, cid) => AssignFinish(Holders(st.mem.positions, {cid}) - {pid})
    case Unassigning(_) => UnassignFinish
    case SettingAudio(_, _) => AudioFinish
    case Hiding => HideFinish
    case Cutting => CutPlan
    case CuttingCamera(_) => CutReadAudio
    case CuttingAudio(_, _) => CutAudioFinish
    case CameraOnAir(_) => CutCameraFinish
    case CuttingScene(_) => CutSceneFinish
    case Pruning(_) => PruneFinish
  }

  lemma NextIsPossible(st: State, t: nat)
    requires Safe(st) && !At(st, t).Idle?
    ensures Enabled(st, t, Next(st, t))
    ensures Left(NextLocal(st, t, Next(st, t))) < Left(At(st, t))
  {
    var l := At(st, t);
    assert LocalOk(st.mem, l);
    if l.Assigning? {
      FirstHitsAreAll(st.mem.positions, {l.cid}, {l.pid}, Holders(st.mem.positions, {l.cid}) - {l.pid});
    }
    hide Inv, FirstHits, Holders, PositionNameIsTaken, PlanCut, Gone, Expired, LocalsOk;
  }

  /** From every safe state, whatever the other threads are in the middle of, every thread can finish alone. */
  lemma {:induction false} EveryThreadCanFinish(st: State, t: nat) returns (trace: Trace)
    requires Safe(st)
    ensures |trace| <= 5 && forall i :: 0 <= i < |trace| ==> trace[i].0 == t
    ensures At(Run(st, trace), t).Idle?
  {
    trace := Finishes(st, t);
    assert Left(At(st, t)) <= 5;
  }

  lemma {:induction false} Finishes(st: State, t: nat) returns (trace: Trace)
    requires Safe(st)
    ensures |trace| <= Left(At(st, t)) && forall i :: 0 <= i < |trace| ==> trace[i].0 == t
    ensures At(Run(st, trace), t).Idle?
    decreases Left(At(st, t))
  {
    trace := [];
    if !At(st, t).Idle? {
      var a := Next(st, t);
      NextIsPossible(st, t);
      StepKeepsSafe(st, t, a);
      assert At(Do(st, t, a), t) == NextLocal(st, t, a);
      hide Safe, Enabled, Do, NextLocal, Left, Next;
      var rest := Finishes(Do(st, t, a), t);
      trace := [(t, a)] + rest;
      RunCons(st, t, a, rest);
    }
  }

  /** An idle thread can always ask for a sync, a preview, a new scene or a cut, and a failed fetch is possible. */
  lemma IdleCanStart(st: State, t: nat, seen: set<string>, now: int)
    requires Safe(st) && At(st, t).Idle? && "" !in seen
    ensures Enabled(st, t, CutBegin) && Enabled(st, t, SyncFails)
    ensures Enabled(st, t, Sync(seen, now, Holders(st.mem.positions, Gone(st.mem, seen))))
  {
    FirstHitsAreAll(st.mem.positions, Gone(st.mem, seen), {}, Holders(st.mem.positions, Gone(st.mem, seen)));
    assert "" !in Gone(st.mem, seen);
    var hits := Holders(st.mem.positions, Gone(st.mem, seen));
    assert hits - {} == hits;
    hide Inv, FirstHits, LocalsOk, Holders, Gone;
  }
}
