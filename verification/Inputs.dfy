/** OBS inputs in every interleaving: exactly which steps orphan one, what an orphan becomes, and whose success it
    takes for none to be left behind. */
module Inputs {
  import opened Model
  import opened Sections
  import opened Invariants
  import opened Interleaved

  type Trace = seq<(nat, Action)>

  predicate OwnsInput(l: Local, id: string) { (l.CreatedInput? || l.LostName?) && l.id == id }

  predicate Deletes(l: Local, id: string) { (l.Deleting? || l.DeletedInput?) && l.pid == id }

  /** The input, when it exists, belongs to a position or to a create that has not finished with it. */
  ghost predicate Owned(st: State, id: string) {
    id in st.inputs && id != SIMPLE ==>
      id in st.mem.positions || exists t :: t in st.locals && OwnsInput(st.locals[t], id)
  }

  // ----- Exactly which steps orphan an input -----

  /** The input is there, and this step drops the last thing that owned it: a create whose save fails, the failing
      removal of the loser of a name, or the end of a delete whose removal failed. */
  ghost predicate Orphans(st: State, t: nat, a: Action, id: string) {
    id != SIMPLE && id in st.inputs &&
    (match a
     case CreateFinish(saveOk) => At(st, t).CreatedInput? && At(st, t).id == id && !saveOk &&
       !PositionNameIsTaken(st.mem, At(st, t).name, SIMPLE)
     case CreateCleanup(ok) => At(st, t) == LostName(id) && !ok
     case DeleteFinish(_) => At(st, t) == DeletedInput(id) && id in st.mem.positions
     case _ => false)
  }

  /** Where inputs come from, and what takes them away. */
  lemma InputMoves(st: State, t: nat, a: Action, id: string)
    requires Enabled(st, t, a)
    ensures id in NextInputs(st, t, a) && id !in st.inputs ==>
      a == CreateInput(true) && At(st, t).Creating? && At(st, t).id == id && OwnsInput(NextLocal(st, t, a), id)
    ensures id in st.inputs && id !in NextInputs(st, t, a) ==>
      (a == CreateCleanup(true) && At(st, t) == LostName(id)) || (a == DeleteInput(true) && At(st, t) == Deleting(id))
    ensures a == CreateCleanup(true) && At(st, t) == LostName(id) ==> id !in NextInputs(st, t, a)
    ensures a == DeleteInput(true) && At(st, t) == Deleting(id) ==> id !in NextInputs(st, t, a)
  {}

  /** How a create gives up its input. */
  lemma OwnerMoves(st: State, t: nat, a: Action, id: string)
    requires Enabled(st, t, a)
    ensures OwnsInput(At(st, t), id) && !a.CreateFinish? && !a.CreateCleanup? ==> OwnsInput(NextLocal(st, t, a), id)
    ensures a.CreateFinish? && OwnsInput(At(st, t), id) ==>
      (OwnsInput(NextLocal(st, t, a), id) <==> PositionNameIsTaken(st.mem, At(st, t).name, SIMPLE))
    ensures a.CreateCleanup? ==> NextLocal(st, t, a) == Idle
    ensures OwnsInput(NextLocal(st, t, a), id) ==> Claims(At(st, t), id)
  {
    hide PlanCut, Expired, FirstHits, Gone;
  }

  /** How positions come and go. */
  lemma PositionMoves(st: State, t: nat, a: Action, id: string)
    requires Enabled(st, t, a) && id != SIMPLE
    ensures id in st.mem.positions && id !in NextMem(st, t, a).positions ==>
      (a.DeleteFinish? && At(st, t) == DeletedInput(id)) || (a.CreateFinish? && At(st, t).id == id)
    ensures a.DeleteFinish? && At(st, t) == DeletedInput(id) ==> id !in NextMem(st, t, a).positions
    ensures id !in st.mem.positions ==>
      (id in NextMem(st, t, a).positions <==>
       a == CreateFinish(true) && At(st, t).id == id && !PositionNameIsTaken(st.mem, At(st, t).name, SIMPLE))
  {
    StepKeysExactly(st, t, a);
    hide NextMem, PositionNameIsTaken, FirstHits, Gone, PlanCut;
  }

  /** In a safe state an id is claimed by one create at most, and then by no position. */
  lemma ClaimFacts(st: State, id: string)
    requires LocalsOk(st)
    ensures forall u :: u in st.locals && Claims(st.locals[u], id) ==>
      id in st.used && id !in st.mem.positions && id != SIMPLE
    ensures forall u, v :: u in st.locals && v in st.locals && Claims(st.locals[u], id) && Claims(st.locals[v], id) ==>
      u == v
  {
    forall u | u in st.locals && Claims(st.locals[u], id)
      ensures id in st.used && id !in st.mem.positions && id != SIMPLE
    {
      assert LocalOk(st.mem, st.locals[u]);
    }
  }

  lemma StepOrphans(st: State, t: nat, a: Action, id: string)
    requires Safe(st) && Enabled(st, t, a) && Orphans(st, t, a, id)
    ensures !Owned(Do(st, t, a), id)
  {
    ClaimFacts(st, id);
    InputMoves(st, t, a, id);
    OwnerMoves(st, t, a, id);
    PositionMoves(st, t, a, id);
    assert forall u :: u in st.locals && OwnsInput(st.locals[u], id) ==> Claims(st.locals[u], id);
    hide Safe, LocalsOk, NextMem, NextLocal, NextInputs, Enabled, PositionNameIsTaken;
    var l, st' := At(st, t), Do(st, t, a);
    assert Claims(l, id) ==> t in st.locals;
    forall u | u in st'.locals ensures !OwnsInput(st'.locals[u], id) {
      assert st'.locals[u] == if u == t then NextLocal(st, t, a) else st.locals[u];
    }
  }

  lemma StepStaysOwned(st: State, t: nat, a: Action, id: string)
    requires Enabled(st, t, a) && Owned(st, id) && !Orphans(st, t, a, id)
    requires a.CreateFinish? && At(st, t).id == id ==> id !in st.mem.positions
    ensures Owned(Do(st, t, a), id)
  {
    var st' := Do(st, t, a);
    if id != SIMPLE && id in st'.inputs {
      InputMoves(st, t, a, id);
      OwnerMoves(st, t, a, id);
      PositionMoves(st, t, a, id);
      hide NextMem, NextLocal, NextInputs, Enabled, PositionNameIsTaken;
      assert st'.locals[t] == NextLocal(st, t, a);
      if id in st.inputs && id !in st.mem.positions {
        var u :| u in st.locals && OwnsInput(st.locals[u], id);
        if u != t { assert OwnsInput(st'.locals[u], id); }
      }
    }
  }

  /** A step leaves the input owned exactly when it does not orphan it. */
  lemma StepOwnedExactly(st: State, t: nat, a: Action, id: string)
    requires Safe(st) && Enabled(st, t, a) && Owned(st, id)
    ensures Owned(Do(st, t, a), id) <==> !Orphans(st, t, a, id)
  {
    if Orphans(st, t, a, id) {
      StepOrphans(st, t, a, id);
    } else {
      assert a.CreateFinish? ==> LocalOk(st.mem, At(st, t));
      hide Owned, Orphans;
      StepStaysOwned(st, t, a, id);
    }
  }

  /** No step of the run orphans the input. */
  ghost predicate NeverOrphans(st: State, trace: Trace, id: string) {
    trace == [] ||
    (var before := Run(st, trace[..|trace| - 1]);
     var (t, a) := trace[|trace| - 1];
     NeverOrphans(st, trace[..|trace| - 1], id) && (Enabled(before, t, a) ==> !Orphans(before, t, a, id)))
  }

  /** In every interleaving, with any failures: an input is owned all along exactly when none of the three steps of its
      own create or delete drops it. What happens to other inputs does not matter. */
  lemma {:induction false} OwnedExactlyWhenNeverOrphaned(st: State, trace: Trace, id: string)
    requires Safe(st) && Owned(st, id)
    ensures NeverOrphans(st, trace, id) <==> forall n :: 0 <= n <= |trace| ==> Owned(Run(st, trace[..n]), id)
  {
    hide Owned, Safe, Enabled, Orphans, Do;
    if trace == [] {
      assert trace[..0] == [];
    } else {
      var k := |trace| - 1;
      var init := trace[..k];
      OwnedExactlyWhenNeverOrphaned(st, init, id);
      EveryInterleavingIsSafe(st, init);
      assert forall n :: 0 <= n <= k ==> trace[..n] == init[..n];
      assert init[..k] == init && trace[..k + 1] == trace;
      var before := Run(st, init);
      var (t, a) := trace[k];
      if Owned(before, id) && Enabled(before, t, a) { StepOwnedExactly(before, t, a, id); }
      assert NeverOrphans(st, trace, id) <==>
        (forall n :: 0 <= n <= k ==> Owned(Run(st, trace[..n]), id)) && Owned(Run(st, trace), id);
    }
  }

  // ----- Whose success it takes -----

  /** The input is owned; one whose delete has passed its removal is gone; and an id that is being deleted is no new
      one. */
  ghost predicate AccountedFor(st: State, id: string) {
    && Owned(st, id)
    && (forall t :: t in st.locals && st.locals[t] == DeletedInput(id) ==> id !in st.inputs)
    && (forall t, u :: t in st.locals && u in st.locals && Deletes(st.locals[t], id) ==> !Claims(st.locals[u], id))
    && (forall t :: t in st.locals && Deletes(st.locals[t], id) ==> id in st.used)
  }

  /** If the step is the save of this id's create, or a removal of its input, it succeeds; all else may fail. */
  ghost predicate TidyFor(st: State, t: nat, a: Action, id: string) {
    match a
    case CreateFinish(saveOk) => At(st, t).CreatedInput? && At(st, t).id == id ==> saveOk
    case CreateCleanup(ok) => At(st, t) == LostName(id) ==> ok
    case DeleteInput(ok) => At(st, t) == Deleting(id) ==> ok
    case _ => true
  }

  /** How a delete moves on. */
  lemma DeleteMoves(st: State, t: nat, a: Action, id: string)
    requires Enabled(st, t, a)
    ensures NextLocal(st, t, a) == DeletedInput(id) ==> a.DeleteInput? && At(st, t) == Deleting(id)
    ensures Deletes(NextLocal(st, t, a), id) ==>
      Deletes(At(st, t), id) || (a == DeleteCheck(id) && id in st.mem.positions && At(st, t).Idle?)
    ensures Claims(NextLocal(st, t, a), id) ==>
      Claims(At(st, t), id) || (a.CreateCheck? && a.id == id && id !in st.used)
  {
    hide PlanCut, Expired, FirstHits, Gone, PositionNameIsTaken;
  }

  /** What a step does to the fields of the state. */
  lemma DoFields(st: State, t: nat, a: Action)
    requires Enabled(st, t, a)
    ensures var st' := Do(st, t, a);
      && st'.mem == NextMem(st, t, a) && st'.inputs == NextInputs(st, t, a)
      && st'.locals == st.locals[t := NextLocal(st, t, a)] && st.used <= st'.used
  {
    hide NextMem, NextLocal, NextInputs, Enabled;
  }

  lemma StepDeletesOld(st: State, t: nat, a: Action, id: string)
    requires Safe(st) && AccountedFor(st, id) && Enabled(st, t, a)
    ensures var st' := Do(st, t, a); forall u :: u in st'.locals && Deletes(st'.locals[u], id) ==> id in st'.used
  {
    DoFields(st, t, a);
    DeleteMoves(st, t, a, id);
    IdleClaimsNothing(id);
    assert id in st.mem.positions ==> id in st.used;
    hide Safe, LocalsOk, Owned, NextMem, NextLocal, NextInputs, Enabled, Deletes, Claims, Do;
  }

  lemma StepDeletesNoNew(st: State, t: nat, a: Action, id: string)
    requires Safe(st) && AccountedFor(st, id) && Enabled(st, t, a)
    ensures var ls := Do(st, t, a).locals;
      forall u, v :: u in ls && v in ls && Deletes(ls[u], id) ==> !Claims(ls[v], id)
  {
    ClaimFacts(st, id);
    DeleteMoves(st, t, a, id);
    assert id in st.mem.positions ==> id in st.used;
    hide Safe, LocalsOk, Owned, NextMem, NextLocal, NextInputs, Enabled, Deletes, Claims;
    var l, ls := At(st, t), Do(st, t, a).locals;
    forall u, v | u in ls && v in ls && Deletes(ls[u], id) ensures !Claims(ls[v], id) {
      assert ls[u] == if u == t then NextLocal(st, t, a) else st.locals[u];
      assert ls[v] == if v == t then NextLocal(st, t, a) else st.locals[v];
      assert Deletes(l, id) || Claims(l, id) ==> t in st.locals by { IdleClaimsNothing(id); }
    }
  }

  lemma IdleClaimsNothing(id: string)
    ensures !Deletes(Idle, id) && !Claims(Idle, id)
  {}

  /** Past its removal, an input that is being deleted is gone. */
  lemma StepRemoves(st: State, t: nat, a: Action, id: string)
    requires AccountedFor(st, id) && Enabled(st, t, a) && TidyFor(st, t, a, id)
    ensures var st' := Do(st, t, a); forall u :: u in st'.locals && st'.locals[u] == DeletedInput(id) ==>
      id !in st'.inputs
  {
    InputMoves(st, t, a, id);
    DeleteMoves(st, t, a, id);
    assert forall u :: u in st.locals && st.locals[u] == DeletedInput(id) ==> Deletes(st.locals[u], id);
    assert At(st, t).Creating? && At(st, t).id == id ==> t in st.locals && Claims(st.locals[t], id);
    hide Owned, NextMem, NextLocal, NextInputs, Enabled, Deletes, Claims;
    var st' := Do(st, t, a);
    forall u | u in st'.locals && st'.locals[u] == DeletedInput(id) ensures id !in st'.inputs {
      assert st'.locals[u] == if u == t then NextLocal(st, t, a) else st.locals[u];
    }
  }

  lemma StepFor(st: State, t: nat, a: Action, id: string)
    requires Safe(st) && AccountedFor(st, id) && Enabled(st, t, a) && TidyFor(st, t, a, id)
    ensures AccountedFor(Do(st, t, a), id)
  {
    StepOwnedExactly(st, t, a, id);
    StepRemoves(st, t, a, id);
    StepDeletesOld(st, t, a, id);
    StepDeletesNoNew(st, t, a, id);
    assert At(st, t) == DeletedInput(id) ==> t in st.locals;
    hide Safe, LocalsOk, Owned, Do, Enabled, PositionNameIsTaken, Deletes, Claims;
  }

  ghost predicate AllTidyFor(st: State, trace: Trace, id: string) {
    trace == [] ||
    (var before := Run(st, trace[..|trace| - 1]);
     var (t, a) := trace[|trace| - 1];
     AllTidyFor(st, trace[..|trace| - 1], id) && (Enabled(before, t, a) ==> TidyFor(before, t, a, id)))
  }

  /** In every interleaving, whatever fails elsewhere: when the save of an id's own create and the removals of its own
      input succeed, its input is never orphaned; once every thread is at rest it belongs to a position. */
  lemma {:induction false} NoInputLeaks(st: State, trace: Trace, id: string)
    requires Safe(st) && AccountedFor(st, id) && AllTidyFor(st, trace, id)
    ensures var end := Run(st, trace);
      && AccountedFor(end, id)
      && (id in end.inputs && id != SIMPLE && (forall t :: t in end.locals ==> end.locals[t].Idle?) ==>
           id in end.mem.positions)
  {
    if trace != [] {
      var init := trace[..|trace| - 1];
      NoInputLeaks(st, init, id);
      EveryInterleavingIsSafe(st, init);
      var before := Run(st, init);
      var (t, a) := trace[|trace| - 1];
      hide Safe, Enabled, Do, TidyFor;
      if Enabled(before, t, a) { StepFor(before, t, a, id); }
    }
  }

  // ----- What becomes of an input nobody owns -----

  /** The input exists, and nothing refers to it any more. */
  ghost predicate Orphan(st: State, id: string) {
    && id in st.inputs && id != SIMPLE && id in st.used && id !in st.mem.positions
    && (forall t :: t in st.locals ==> !Claims(st.locals[t], id) && st.locals[t] != Deleting(id))
  }

  /** The input does not exist, and nothing refers to its id any more. */
  ghost predicate Vanished(st: State, id: string) {
    && id !in st.inputs && id != SIMPLE && id in st.used && id !in st.mem.positions
    && (forall t :: t in st.locals ==> !Claims(st.locals[t], id))
  }

  lemma StepKeepsOrphan(st: State, t: nat, a: Action, id: string)
    requires Enabled(st, t, a) && Orphan(st, id)
    ensures Orphan(Do(st, t, a), id)
  {
    InputMoves(st, t, a, id);
    StaysUnreferred(st, t, a, id);
    hide NextMem, NextLocal, NextInputs, Enabled;
    var l := At(st, t);
    assert Claims(l, id) || l == Deleting(id) ==> t in st.locals;
  }

  lemma StepKeepsVanished(st: State, t: nat, a: Action, id: string)
    requires Enabled(st, t, a) && Vanished(st, id)
    ensures Vanished(Do(st, t, a), id)
  {
    InputMoves(st, t, a, id);
    StaysUnreferred(st, t, a, id);
    hide NextMem, NextLocal, NextInputs, Enabled;
    assert Claims(At(st, t), id) ==> t in st.locals;
  }

  /** An id that no position and no create refers to is not referred to again. */
  lemma StaysUnreferred(st: State, t: nat, a: Action, id: string)
    requires Enabled(st, t, a) && id != SIMPLE && id in st.used && id !in st.mem.positions && !Claims(At(st, t), id)
    ensures id !in NextMem(st, t, a).positions && !Claims(NextLocal(st, t, a), id)
    ensures NextLocal(st, t, a) != Deleting(id)
  {
    PositionMoves(st, t, a, id);
    DeleteMoves(st, t, a, id);
    FinishClaims(st, t, a);
    hide NextMem, NextLocal, Enabled, PositionNameIsTaken;
  }

  lemma FinishClaims(st: State, t: nat, a: Action)
    requires Enabled(st, t, a)
    ensures a.CreateFinish? ==> Claims(At(st, t), At(st, t).id)
    ensures NextLocal(st, t, a).Deleting? ==> NextLocal(st, t, a).pid in st.mem.positions
  {
    hide PlanCut, Expired, FirstHits, Gone, PositionNameIsTaken;
  }

  /** An orphan stays for good, and what is gone stays gone, whatever runs later. */
  lemma {:induction false} FateIsFinal(st: State, trace: Trace, id: string)
    ensures Orphan(st, id) ==> Orphan(Run(st, trace), id)
    ensures Vanished(st, id) ==> Vanished(Run(st, trace), id)
  {
    if trace != [] {
      var before := Run(st, trace[..|trace| - 1]);
      var (t, a) := trace[|trace| - 1];
      FateIsFinal(st, trace[..|trace| - 1], id);
      hide Orphan, Vanished, Enabled, Do;
      if Enabled(before, t, a) {
        if Orphan(before, id) { StepKeepsOrphan(before, t, a, id); }
        if Vanished(before, id) { StepKeepsVanished(before, t, a, id); }
      }
    }
  }

  // ----- The failing family, and the loser of a name -----

  /** Whenever the save of a create fails, its input is orphaned: it exists, no position has it, no thread will remove
      it, and so it stays whatever runs later. */
  lemma FailedCreateSaveOrphans(st: State, t: nat, later: Trace)
    requires Safe(st) && At(st, t).CreatedInput? && At(st, t).id in st.inputs
    requires AccountedFor(st, At(st, t).id) && !PositionNameIsTaken(st.mem, At(st, t).name, SIMPLE)
    ensures Orphan(Do(st, t, CreateFinish(false)), At(st, t).id)
    ensures Orphan(Run(Do(st, t, CreateFinish(false)), later), At(st, t).id)
  {
    var id := At(st, t).id;
    assert t in st.locals && Claims(st.locals[t], id);
    ClaimFacts(st, id);
    assert forall u :: u in st.locals && st.locals[u] == Deleting(id) ==> Deletes(st.locals[u], id);
    FinishedCreate(st, t, false);
    hide Safe, LocalsOk, Owned, NextMem, NextLocal, NextInputs, Enabled, PositionNameIsTaken;
    FateIsFinal(Do(st, t, CreateFinish(false)), later, id);
  }

  lemma FinishedCreate(st: State, t: nat, saveOk: bool)
    requires At(st, t).CreatedInput?
    ensures var a, l := CreateFinish(saveOk), At(st, t);
      var taken := PositionNameIsTaken(st.mem, l.name, SIMPLE);
      && Enabled(st, t, a) && NextInputs(st, t, a) == st.inputs
      && NextLocal(st, t, a) == (if taken then LostName(l.id) else Idle)
      && NextMem(st, t, a) == CreateCommit(st.mem, l.id, l.name, saveOk).0
      && NextMem(st, t, a).positions.Keys ==
         (if taken then st.mem.positions.Keys
          else if saveOk then st.mem.positions.Keys + {l.id}
          else st.mem.positions.Keys - {l.id})
  {
    CreateKeys(st.mem, At(st, t).id, At(st, t).name, saveOk);
    hide CreateCommit, PositionNameIsTaken;
  }

  lemma StartedCreate(st: State, t: nat, name: string, id: string)
    requires At(st, t).Idle? && id !in st.used && !PositionNameIsTaken(st.mem, name, SIMPLE)
    ensures Enabled(st, t, CreateCheck(name, id))
    ensures var s1 := Do(st, t, CreateCheck(name, id));
      && Enabled(s1, t, CreateInput(true))
      && (var s2 := Do(s1, t, CreateInput(true));
          && s2.mem == st.mem && At(s2, t) == CreatedInput(name, id) && s2.inputs == st.inputs + {id})
  {
    hide PositionNameIsTaken;
  }

  lemma StartedCreateSafe(st: State, t: nat, name: string, id: string)
    requires Safe(st) && AccountedFor(st, id) && At(st, t).Idle? && id !in st.used &&
      !PositionNameIsTaken(st.mem, name, SIMPLE)
    ensures Enabled(st, t, CreateCheck(name, id))
    ensures var s1 := Do(st, t, CreateCheck(name, id));
      Enabled(s1, t, CreateInput(true)) && Safe(Do(s1, t, CreateInput(true))) &&
        AccountedFor(Do(s1, t, CreateInput(true)), id)
  {
    StartedCreate(st, t, name, id);
    hide Safe, AccountedFor, Enabled, Do, PositionNameIsTaken;
    var s1 := Do(st, t, CreateCheck(name, id));
    StepKeepsSafe(st, t, CreateCheck(name, id));
    StepKeepsSafe(s1, t, CreateInput(true));
    StepFor(st, t, CreateCheck(name, id), id);
    StepFor(s1, t, CreateInput(true), id);
  }

  /** From any safe state with an idle thread: a create, run alone, whose save fails leaves an input that stays for
      good. AccountedFor says no more here than that the id is new to the deletes as well. */
  lemma FailedCreateLeavesOrphan(st: State, t: nat, name: string, id: string, later: Trace)
    requires Safe(st) && AccountedFor(st, id) && At(st, t).Idle? && id !in st.used &&
      !PositionNameIsTaken(st.mem, name, SIMPLE)
    ensures Orphan(Run(st, [(t, CreateCheck(name, id)), (t, CreateInput(true)), (t, CreateFinish(false))] + later), id)
  {
    StartedCreate(st, t, name, id);
    StartedCreateSafe(st, t, name, id);
    hide Safe, AccountedFor, Orphan, Enabled, Do, PositionNameIsTaken, Run;
    var s2 := Do(Do(st, t, CreateCheck(name, id)), t, CreateInput(true));
    FailedCreateSaveOrphans(s2, t, later);
    FinishedCreate(s2, t, false);
    RunThree(st, t, CreateCheck(name, id), t, CreateInput(true), t, CreateFinish(false), later);
  }

  /** Whenever the loser of a name removes its input with success, the input is gone for good, whatever else fails and
      whatever runs later. */
  lemma LoserCleansUp(st: State, t: nat, later: Trace)
    requires Safe(st) && At(st, t).LostName?
    ensures Enabled(st, t, CreateCleanup(true))
    ensures Vanished(Run(Do(st, t, CreateCleanup(true)), later), At(st, t).id)
  {
    var id := At(st, t).id;
    assert t in st.locals && Claims(st.locals[t], id);
    ClaimFacts(st, id);
    hide Inv;
    FateIsFinal(Do(st, t, CreateCleanup(true)), later, id);
  }

  /** The first of two creates of one name to commit, and the second, which loses the name. */
  lemma SecondLoses(st: State, t: nat, u: nat, saveOk: bool)
    requires Safe(st) && t != u && At(st, t).CreatedInput? && At(st, u).CreatedInput? &&
      At(st, t).name == At(st, u).name
    requires !PositionNameIsTaken(st.mem, At(st, t).name, SIMPLE)
    ensures Enabled(st, t, CreateFinish(true)) && Enabled(Do(st, t, CreateFinish(true)), u, CreateFinish(saveOk))
    ensures var s2 := Do(Do(st, t, CreateFinish(true)), u, CreateFinish(saveOk));
      && At(s2, u) == LostName(At(st, u).id)
      && At(st, t).id in s2.mem.positions && s2.mem.positions[At(st, t).id].name == At(st, t).name
  {
    FinishedCreate(st, t, true);
    var s1 := Do(st, t, CreateFinish(true));
    assert At(s1, u) == At(st, u);
    assert Claims(At(st, t), At(st, t).id);
    ClaimFacts(st, At(st, t).id);
    CreatedIsThere(st.mem, At(st, t).id, At(st, t).name);
    FinishedCreate(s1, u, saveOk);
    TakenChangesNothing(s1.mem, At(st, u).id, At(st, u).name, saveOk);
    hide Safe, LocalsOk, Enabled, NextMem, NextLocal, NextInputs, PositionNameIsTaken, CreateCommit;
  }

  /** Two creates of one name that both passed the first check: whoever commits second loses the name, whether its
      save would have worked or not; once it has removed its input, that input is gone for good and the winner has
      the name. */
  lemma OverlappingCreates(st: State, t: nat, u: nat, saveOk: bool, later: Trace)
    requires Safe(st) && t != u && At(st, t).CreatedInput? && At(st, u).CreatedInput? &&
      At(st, t).name == At(st, u).name
    requires !PositionNameIsTaken(st.mem, At(st, t).name, SIMPLE)
    ensures var trace := [(t, CreateFinish(true)), (u, CreateFinish(saveOk)), (u, CreateCleanup(true))];
      var end := Run(st, trace);
      && At(st, t).id in end.mem.positions && end.mem.positions[At(st, t).id].name == At(st, t).name
      && Vanished(Run(st, trace + later), At(st, u).id)
  {
    SecondLoses(st, t, u, saveOk);
    hide Safe, Vanished, Enabled, PositionNameIsTaken, Run, NextInputs, NextLocal;
    var s1 := Do(st, t, CreateFinish(true));
    var s2 := Do(s1, u, CreateFinish(saveOk));
    StepKeepsSafe(st, t, CreateFinish(true));
    StepKeepsSafe(s1, u, CreateFinish(saveOk));
    LoserCleansUp(s2, u, later);
    CleanupKeepsMem(s2, u);
    hide Do;
    RunThree(st, t, CreateFinish(true), u, CreateFinish(saveOk), u, CreateCleanup(true), later);
    RunThree(st, t, CreateFinish(true), u, CreateFinish(saveOk), u, CreateCleanup(true), []);
    var trace := [(t, CreateFinish(true)), (u, CreateFinish(saveOk)), (u, CreateCleanup(true))];
    assert trace + [] == trace;
    NothingRuns(Do(s2, u, CreateCleanup(true)));
  }

  lemma NothingRuns(st: State)
    ensures Run(st, []) == st
  {}

  lemma CleanupKeepsMem(st: State, t: nat)
    requires At(st, t).LostName?
    ensures Enabled(st, t, CreateCleanup(true)) && Do(st, t, CreateCleanup(true)).mem == st.mem
  {}

  lemma CreatedIsThere(m: Mem, id: string, name: string)
    requires id != SIMPLE && !PositionNameIsTaken(m, name, SIMPLE)
    ensures var m' := CreateCommit(m, id, name, true).0;
      id in m'.positions && m'.positions[id].name == name && PositionNameIsTaken(m', name, SIMPLE)
  {
    hide PositionDefs;
    assert CreateCommit(m, id, name, true).0.positions[id].name == name;
  }

  lemma TakenChangesNothing(m: Mem, id: string, name: string, saveOk: bool)
    requires PositionNameIsTaken(m, name, SIMPLE)
    ensures CreateCommit(m, id, name, saveOk).0 == m
  {}

  // ----- Whole runs without such failures -----

  /** Removals and the saves of creates succeed; all else may fail. */
  predicate Tidy(a: Action) {
    match a
    case CreateFinish(saveOk) => saveOk
    case CreateCleanup(ok) => ok
    case DeleteInput(ok) => ok
    case _ => true
  }

  lemma {:induction false} TidyRunsAreTidyFor(st: State, trace: Trace, id: string)
    requires forall i :: 0 <= i < |trace| ==> Tidy(trace[i].1)
    ensures AllTidyFor(st, trace, id)
  {
    if trace != [] {
      TidyRunsAreTidyFor(st, trace[..|trace| - 1], id);
      assert Tidy(trace[|trace| - 1].1);
      hide Enabled, Do, Run;
    }
  }

  /** When none of these fail in the whole run, no input leaks: once every thread is at rest, each belongs to a
      position. */
  lemma TidyRunsLeakNothing(st: State, trace: Trace)
    requires Safe(st) && forall id :: AccountedFor(st, id)
    requires forall i :: 0 <= i < |trace| ==> Tidy(trace[i].1)
    ensures var end := Run(st, trace);
      (forall t :: t in end.locals ==> end.locals[t].Idle?) ==> end.inputs <= end.mem.positions.Keys + {SIMPLE}
  {
    var end := Run(st, trace);
    forall id | id in end.inputs && id != SIMPLE && forall t :: t in end.locals ==> end.locals[t].Idle?
      ensures id in end.mem.positions
    {
      assert AccountedFor(st, id);
      TidyRunsAreTidyFor(st, trace, id);
      NoInputLeaks(st, trace, id);
    }
    hide Safe, AccountedFor, Run, AllTidyFor;
  }
}
