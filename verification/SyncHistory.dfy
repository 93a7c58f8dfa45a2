/** The camera table as a function of what the syncs saw, with no reference to how it was updated. */
module SyncHistory {
  import opened Options
  import opened Model
  import Names
  import opened Obs
  import opened Sections
  import opened Sequential

  /** A sync that could ask the media server: when it ran and which streams it saw. */
  datatype Tick = Tick(now: int, seen: set<string>)

  /** Syncs do not run back in time. */
  ghost predicate Ordered(h: seq<Tick>) {
    forall i, j :: 0 <= i < j < |h| ==> h[i].now <= h[j].now
  }

  /** The camera was seen at tick j and at none after it. */
  ghost predicate LastSeenAt(h: seq<Tick>, id: string, j: int) {
    && 0 <= j < |h| && id in h[j].seen
    && (forall k :: j < k < |h| ==> id !in h[k].seen)
  }

  /** Seen by the last tick, or missed first by a tick less than the pruning delay before it. */
  ghost predicate KnownBy(h: seq<Tick>, id: string, j: int) {
    LastSeenAt(h, id, j) && (j == |h| - 1 || h[|h| - 1].now - h[j + 1].now < OFFLINE_REMOVE_AFTER)
  }

  /** What the history says about the camera table. */
  ghost predicate TableIs(h: seq<Tick>, cams: map<string, Camera>, offlineSince: map<string, int>) {
    && (forall id :: id in cams <==> exists j :: KnownBy(h, id, j))
    && (forall id, j :: id in cams && LastSeenAt(h, id, j) ==>
          && cams[id].lastSeenAt == h[j].now
          && (cams[id].online <==> j == |h| - 1)
          && (cams[id].online <==> id !in offlineSince)
          && (j < |h| - 1 ==> id in offlineSince && offlineSince[id] == h[j + 1].now))
    && offlineSince.Keys <= cams.Keys
  }

  lemma LastSeenUnique(h: seq<Tick>, id: string, i: int, j: int)
    requires LastSeenAt(h, id, i) && LastSeenAt(h, id, j)
    ensures i == j
  {}

  /** The guarded state after both sections of a sync, as far as cameras go. */
  function AfterTick(m: Mem, t: Tick): Mem {
    SyncPrune(SyncMark(m, t.seen, t.now, {}), Expired(m, t.seen, t.now))
  }

  /** What one sync does to one camera. */
  lemma TickOne(m: Mem, t: Tick, id: string)
    ensures var m' := AfterTick(m, t);
      && (id in m'.cameras <==> id in t.seen || (id in m.cameras && id !in Expired(m, t.seen, t.now)))
      && (id in t.seen ==> m'.cameras[id].online && m'.cameras[id].lastSeenAt == t.now)
      && (id in m'.cameras && id !in t.seen ==>
           !m'.cameras[id].online && m'.cameras[id].lastSeenAt == m.cameras[id].lastSeenAt)
      && (id in m'.offlineSince <==>
          (id !in Expired(m, t.seen, t.now) &&
           (id in Gone(m, t.seen) ||
             (id in m.offlineSince && !(id in t.seen && id in m.cameras && !m.cameras[id].online)))))
      && (id in m'.offlineSince ==> m'.offlineSince[id] == if id in Gone(m, t.seen) then t.now else m.offlineSince[id])
  {}

  /** One more sync extends the history by one tick. */
  lemma TickExtends(m: Mem, h: seq<Tick>, t: Tick)
    requires TableIs(h, m.cameras, m.offlineSince) && Ordered(h + [t])
    ensures var m' := AfterTick(m, t);
      TableIs(h + [t], m'.cameras, m'.offlineSince)
  {
    var h' := h + [t];
    var m' := AfterTick(m, t);
    forall id ensures id in m'.cameras <==> exists j :: KnownBy(h', id, j) {
      TickKnown(m, h, t, id);
    }
    forall id, j | id in m'.cameras && LastSeenAt(h', id, j)
      ensures && m'.cameras[id].lastSeenAt == h'[j].now
              && (m'.cameras[id].online <==> j == |h'| - 1)
              && (m'.cameras[id].online <==> id !in m'.offlineSince)
              && (j < |h'| - 1 ==> id in m'.offlineSince && m'.offlineSince[id] == h'[j + 1].now)
    {
      TickFields(m, h, t, id, j);
    }
    forall id | id in m'.offlineSince ensures id in m'.cameras {
      TickOne(m, t, id);
    }
  }

  /** A camera that was known and is missed now stays known unless it has been missed for too long. */
  lemma TickKnown(m: Mem, h: seq<Tick>, t: Tick, id: string)
    requires TableIs(h, m.cameras, m.offlineSince) && Ordered(h + [t])
    ensures var m' := AfterTick(m, t);
      id in m'.cameras <==> exists j :: KnownBy(h + [t], id, j)
  {
    var h' := h + [t];
    TickOne(m, t, id);
    if id in t.seen {
      assert KnownBy(h', id, |h|);
    } else {
      forall j ensures LastSeenAt(h', id, j) <==> LastSeenAt(h, id, j) {
        if LastSeenAt(h, id, j) { assert forall k :: j < k < |h'| ==> id !in h'[k].seen; }
        if LastSeenAt(h', id, j) { assert forall k :: j < k < |h| ==> h[k] == h'[k]; }
      }
      forall j | KnownBy(h', id, j) ensures KnownBy(h, id, j) { KnownBefore(h, t, id, j); }
      if id in m.cameras {
        var j :| KnownBy(h, id, j);
        assert h'[j + 1].now == if j == |h| - 1 then t.now else h[j + 1].now;
        assert id in Expired(m, t.seen, t.now) <==> !KnownBy(h', id, j);
        forall i | KnownBy(h', id, i) ensures i == j { LastSeenUnique(h, id, i, j); }
      }
    }
  }

  /** What is known after being missed was known before. */
  lemma KnownBefore(h: seq<Tick>, t: Tick, id: string, j: int)
    requires Ordered(h + [t]) && id !in t.seen && KnownBy(h + [t], id, j)
    ensures KnownBy(h, id, j)
  {
    var h' := h + [t];
    assert forall k :: 0 <= k < |h| ==> h[k] == h'[k];
    assert h'[|h|] == t;
    assert j < |h| - 1 ==> h'[|h| - 1].now <= h'[|h|].now;
  }

  lemma TickFields(m: Mem, h: seq<Tick>, t: Tick, id: string, j: int)
    requires TableIs(h, m.cameras, m.offlineSince) && LastSeenAt(h + [t], id, j)
    requires id in AfterTick(m, t).cameras
    ensures var m' := AfterTick(m, t);
      var h' := h + [t];
      && m'.cameras[id].lastSeenAt == h'[j].now
      && (m'.cameras[id].online <==> j == |h'| - 1)
      && (m'.cameras[id].online <==> id !in m'.offlineSince)
      && (j < |h'| - 1 ==> id in m'.offlineSince && m'.offlineSince[id] == h'[j + 1].now)
  {
    TickOne(m, t, id);
    var h' := h + [t];
    if j < |h| {
      assert h'[|h|] == t;
      assert forall k :: 0 <= k < |h| ==> h[k] == h'[k];
      assert LastSeenAt(h, id, j);
    } else if id in m.cameras {
      var i :| KnownBy(h, id, i);
    }
  }

  // ----- Over whole runs -----

  /** What one command adds to the history. */
  function Adds(c: Command): seq<Tick> {
    if c.DoSync? && c.streams.Some? then [Tick(c.now, c.streams.value)] else []
  }

  /** The history a run leaves: its syncs that could ask the media server. */
  function Ticks(trace: seq<(Command, Faults)>): seq<Tick> {
    if trace == [] then [] else Ticks(trace[..|trace| - 1]) + Adds(trace[|trace| - 1].0)
  }

  lemma CreateKeepsCameras(s: Sys, name: string, id: string, f: Faults)
    ensures var m := CreatePosition(s, name, id, f).0.mem;
      m.cameras == s.mem.cameras && m.offlineSince == s.mem.offlineSince
  {
    hide PositionDefs, PositionNameIsTaken, Names.ValidatePositionName, Create;
  }

  lemma DefinitionsKeepCameras(s: Sys, c: Command, f: Faults)
    requires c.DoCreatePosition? || c.DoRenamePosition? || c.DoDeletePosition?
    ensures Exec(s, c, f).mem.cameras == s.mem.cameras && Exec(s, c, f).mem.offlineSince == s.mem.offlineSince
  {
    if c.DoCreatePosition? { CreateKeepsCameras(s, c.name, c.id, f); }
    hide PositionDefs, PositionNameIsTaken, Names.ValidatePositionName, DropInput, CreatePosition;
  }

  lemma AssignmentsKeepCameras(s: Sys, c: Command, f: Faults)
    requires c.DoAssignCamera? || c.DoUnassignPosition? || c.DoSetAudioPosition?
    ensures Exec(s, c, f).mem.cameras == s.mem.cameras && Exec(s, c, f).mem.offlineSince == s.mem.offlineSince
  {
    hide Settle, Update, Mute, MutePrevious, Reflag, Holders;
  }

  lemma NewSceneKeepsCameras(s: Sys, name: string, ids: seq<string>, id: string, f: Faults)
    ensures var m := CreateScene(s, name, ids, id, f).0.mem;
      m.cameras == s.mem.cameras && m.offlineSince == s.mem.offlineSince
  {
    hide SceneDefs, Names.ValidateSceneName, Dedupe, ValidateSceneIDs;
  }

  lemma RenameSceneKeepsCameras(s: Sys, id: string, name: string, f: Faults)
    ensures var m := RenameScene(s, id, name, f).0.mem;
      m.cameras == s.mem.cameras && m.offlineSince == s.mem.offlineSince
  {
    hide SceneDefs, Names.ValidateSceneName, SceneNameIsTaken;
  }

  lemma UpdateKeepsCameras(s: Sys, id: string, ids: seq<string>, order: seq<string>, f: Faults)
    ensures var m := UpdateScenePositions(s, id, ids, order, f).0.mem;
      m.cameras == s.mem.cameras && m.offlineSince == s.mem.offlineSince
  {
    hide SceneDefs, Dedupe, ValidateSceneIDs, ApplyExclusive, IdSet;
  }

  lemma DeleteAndPreviewKeepCameras(s: Sys, c: Command, f: Faults)
    requires c.DoDeleteScene? || c.DoPreviewCamera? || c.DoPreviewScene?
    ensures Exec(s, c, f).mem.cameras == s.mem.cameras && Exec(s, c, f).mem.offlineSince == s.mem.offlineSince
  {
    hide SceneDefs;
  }

  lemma OtherCommandsKeepCameras(s: Sys, c: Command, f: Faults)
    requires !c.DoCut? && !c.DoEnsureHidden? && !c.DoSync?
    ensures Exec(s, c, f).mem.cameras == s.mem.cameras && Exec(s, c, f).mem.offlineSince == s.mem.offlineSince
  {
    if c.DoUpdateScene? || c.DoCreateScene? || c.DoRenameScene? {
      match c {
        case DoUpdateScene(id, ids, order) => UpdateKeepsCameras(s, id, ids, order, f);
        case DoCreateScene(name, ids, id) => NewSceneKeepsCameras(s, name, ids, id, f);
        case DoRenameScene(id, name) => RenameSceneKeepsCameras(s, id, name, f);
      }
      hide UpdateScenePositions, CreateScene, RenameScene;
      return;
    }
    hide Exec;
    if c.DoCreatePosition? || c.DoRenamePosition? || c.DoDeletePosition? {
      DefinitionsKeepCameras(s, c, f);
    } else if c.DoAssignCamera? || c.DoUnassignPosition? || c.DoSetAudioPosition? {
      AssignmentsKeepCameras(s, c, f);
    } else {
      DeleteAndPreviewKeepCameras(s, c, f);
    }
  }

  lemma CutKeepsCameras(s: Sys, order: seq<string>, f: Faults)
    ensures EnsureHidden(s, f).mem.cameras == s.mem.cameras && EnsureHidden(s, f).mem.offlineSince == s.mem.offlineSince
    ensures Cut(s, order, f).0.mem.cameras == s.mem.cameras && Cut(s, order, f).0.mem.offlineSince == s.mem.offlineSince
  {
    hide ApplyExclusive, Update, Mute, MutePrevious, Create, Reflag, Existing;
  }

  lemma SyncExtends(s: Sys, h: seq<Tick>, t: Tick, f: Faults)
    requires TableIs(h, s.mem.cameras, s.mem.offlineSince) && Ordered(h + [t])
    ensures var m := SyncOnce(s, Some(t.seen), t.now, f).mem; TableIs(h + [t], m.cameras, m.offlineSince)
  {
    TickExtends(s.mem, h, t);
    hide TableIs, Ordered, MarkedCameras, MarkedOffline, Expired, Gone, Holders, Settle;
  }

  lemma CommandExtends(s: Sys, h: seq<Tick>, c: Command, f: Faults)
    requires TableIs(h, s.mem.cameras, s.mem.offlineSince) && Ordered(h + Adds(c))
    ensures var m := Exec(s, c, f).mem; TableIs(h + Adds(c), m.cameras, m.offlineSince)
  {
    hide TableIs, Ordered, Cut, EnsureHidden;
    assert !(c.DoSync? && c.streams.Some?) ==> h + Adds(c) == h;
    match c
    case DoSync(streams, now) =>
      if streams.Some? { SyncExtends(s, h, Tick(now, streams.value), f); }
      hide SyncMark, SyncPrune, Settle, Holders, Gone, Expired;
    case DoCut(order) => CutKeepsCameras(s, order, f);
    case DoEnsureHidden => CutKeepsCameras(s, [], f);
    case _ =>
      OtherCommandsKeepCameras(s, c, f);
      hide Exec;
  }

  /** SyncOnce refines the history: after every sequential run from New, with syncs at nondecreasing times, a
      camera is known, online and timed as the ticks alone say. */
  lemma {:induction false} SyncRefinesHistory(s: Sys, trace: seq<(Command, Faults)>)
    requires s.mem.cameras == map[] && s.mem.offlineSince == map[]
    requires Ordered(Ticks(trace))
    ensures var m := Run(s, trace).mem; TableIs(Ticks(trace), m.cameras, m.offlineSince)
  {
    if trace != [] {
      var init := trace[..|trace| - 1];
      var (c, f) := trace[|trace| - 1];
      assert Ticks(init) <= Ticks(trace);
      SyncRefinesHistory(s, init);
      hide TableIs, Ordered, Exec;
      CommandExtends(Run(s, init), Ticks(init), c, f);
    }
  }
}
