/** Every position operation of the sequential model by its guards: the answer, and each field of memory and each
    table of OBS, item by item, with everything else as it was. */
module PositionContracts {
  import opened Options
  import opened Model
  import Names
  import opened Obs
  import opened Sections
  import opened Sequential

  /** The file after a save that was tried. */
  ghost predicate PositionsSaved(m: Mem, m': Mem, f: Faults) {
    m'.positionStore == Store(if SavePositions in f then m.positionStore.saved
      else PositionDefs(m'.positions), SavePositions !in f)
  }

  predicate NameTaken(m: Mem, name: string, own: string) {
    exists x :: x in m.positions && x != SIMPLE && x != own && m.positions[x].name == name
  }

  // ----- Definitions -----

  lemma CreateExact(s: Sys, name: string, id: string, f: Faults)
    requires id !in s.mem.positions && id != SIMPLE
    ensures var (s', r) := CreatePosition(s, name, id, f);
      var t := Names.TrimSpace(name);
      if t == "" then s' == s && r == Err(PositionNameEmpty)
      else if |t| > 100 then s' == s && r == Err(PositionNameTooLong)
      else if NameTaken(s.mem, t, SIMPLE) then s' == s && r == Err(PositionNameTaken)
      else if CreateInput(id) in f || id in s.obs.inputs then s' == s && r == Err(OBSUnreachable)
      else
        && s'.obs == s.obs.(inputs := s.obs.inputs[id := ""], enabled := s.obs.enabled[id := false])
        && (if SavePositions in f
            then r == Err(SaveFailed) && s'.mem == s.mem.(positionStore := Store(s.mem.positionStore.saved, false))
            else
              && r == Ok(Position(t, "", false))
              && s'.mem == s.mem.(positions := s.mem.positions[id := r.value], positionStore := s'.mem.positionStore)
              && PositionsSaved(s.mem, s'.mem, f))
  {
    hide PositionDefs, Names.TrimSpace;
    var t := Names.TrimSpace(name);
    assert NameTaken(s.mem, t, SIMPLE) <==> PositionNameIsTaken(s.mem, t, SIMPLE);
    assert s.mem.positions[id := Position(t, "", false)] - {id} == s.mem.positions;
    hide NameTaken, PositionNameIsTaken;
  }

  lemma RenameExact(s: Sys, id: string, name: string, f: Faults)
    ensures var (s', r) := RenamePosition(s, id, name, f);
      var t := Names.TrimSpace(name);
      if id == SIMPLE then s' == s && r == Err(ReservedPosition)
      else if t == "" then s' == s && r == Err(PositionNameEmpty)
      else if |t| > 100 then s' == s && r == Err(PositionNameTooLong)
      else if id !in s.mem.positions then s' == s && r == Err(PositionNotFound)
      else if s.mem.positions[id].name == t then s' == s && r == Ok(s.mem.positions[id])
      else if NameTaken(s.mem, t, id) then s' == s && r == Err(PositionNameTaken)
      else
        && s'.obs == s.obs
        && s'.mem == s.mem.(positions := s.mem.positions[id := s.mem.positions[id].(name := t)],
                            positionStore := s'.mem.positionStore)
        && PositionsSaved(s.mem, s'.mem, f)
        && r == (if SavePositions in f then Err(SaveFailed) else Ok(s'.mem.positions[id]))
  {
    hide PositionDefs, Names.TrimSpace;
    var t := Names.TrimSpace(name);
    assert NameTaken(s.mem, t, id) <==> PositionNameIsTaken(s.mem, t, id);
    hide NameTaken, PositionNameIsTaken;
  }

  /** The input of a deleted position: gone from all three tables; or, when its removal fails, switched off if it was
      occupied and muted if it carried the audio, as far as these calls go through. */
  ghost predicate Dropped(o: Tables, o': Tables, id: string, p: Position, f: Faults) {
    if RemoveInput(id) !in f
    then o' == Tables(o.inputs - {id}, o.enabled - {id}, o.muted - {id})
    else
      && o'.inputs == o.inputs
      && Becomes(o, o',
                 if p.cameraID != "" && id in o.inputs && SetEnabled(id) !in f then {id} else {},
                 if p.isAudio && SetMuted(id) !in f then {id} else {}, {})
  }

  lemma DropExact(o: Tables, id: string, p: Position, f: Faults)
    ensures Dropped(o, DropInput(o, id, p, f), id, p, f)
  {
    var o1 := if p.cameraID != "" then Enable(o, id, false, f).0 else o;
    var o2 := if p.isAudio then Mute(o1, id, true, f).0 else o1;
    if RemoveInput(id) !in f {
      assert o1.enabled - {id} == o.enabled - {id} && o2.muted - {id} == o.muted - {id};
    } else {
      assert DropInput(o, id, p, f) == o2;
      EnableExact(o, id, f);
      MuteExact(o1, id, true, f);
    }
    hide Enable, Mute;
  }

  lemma EnableExact(o: Tables, id: string, f: Faults)
    ensures var o' := Enable(o, id, false, f).0;
      o'.inputs == o.inputs && Becomes(o, o', if id in o.inputs && SetEnabled(id) !in f then {id} else {}, {}, {})
  {}

  lemma MuteExact(o: Tables, id: string, on: bool, f: Faults)
    ensures var (o', ok) := Mute(o, id, on, f);
      && ok == (SetMuted(id) !in f) && o'.inputs == o.inputs && o'.enabled == o.enabled
      && Becomes(o, o', {}, if ok && on then {id} else {}, if ok && !on then {id} else {})
  {}

  lemma DeleteExact(s: Sys, id: string, f: Faults)
    ensures var (s', r) := DeletePosition(s, id, f);
      if id == SIMPLE then s' == s && r == Err(ReservedPosition)
      else if id !in s.mem.positions then s' == s && r == Err(PositionNotFound)
      else
        && Dropped(s.obs, s'.obs, id, s.mem.positions[id], f)
        && s'.mem == s.mem.(positions := s.mem.positions - {id}, audio := if s.mem.audio == id then "" else s.mem.audio,
                            positionStore := s'.mem.positionStore)
        && PositionsSaved(s.mem, s'.mem, f)
        && r == (if SavePositions in f then Err(SaveFailed) else Ok(()))
  {
    if id in s.mem.positions { DropExact(s.obs, id, s.mem.positions[id], f); }
    hide PositionDefs, DropInput, Dropped;
  }

  // ----- Cameras in positions -----

  /** These positions lose their camera, and with it the audio flag; the audio id is dropped when one of them was
      flagged. Positions that are none of these and not excepted are as they were. */
  ghost predicate Lost(m: Mem, m': Mem, lost: set<string>, except: set<string>)
    requires lost <= m.positions.Keys
  {
    && m'.positions.Keys == m.positions.Keys
    && (forall x :: x in m.positions && x !in except ==>
          m'.positions[x] == if x in lost then m.positions[x].(cameraID := "", isAudio := false) else m.positions[x])
    && m'.audio == if exists x :: x in lost && m.positions[x].isAudio then "" else m.audio
  }

  /** And their inputs are switched off, and muted where they carried the audio, as far as these calls go through. */
  ghost predicate SwitchedOff(o: Tables, o': Tables, m: Mem, lost: set<string>, f: Faults)
    requires lost <= m.positions.Keys
  {
    Becomes(o, o', set x | x in lost && x in o.inputs && SetEnabled(x) !in f,
            set x | x in lost && m.positions[x].isAudio && SetMuted(x) !in f, {})
  }

  lemma SettleExact(o: Tables, m: Mem, lost: set<string>, f: Faults)
    requires lost <= m.positions.Keys
    ensures Settle(o, m, lost, f).inputs == o.inputs && SwitchedOff(o, Settle(o, m, lost, f), m, lost, f)
  {}

  lemma ClearExact(m: Mem, lost: set<string>)
    requires lost <= m.positions.Keys
    ensures var m' := ClearPositions(m, lost);
      m' == m.(positions := m'.positions, audio := m'.audio) && Lost(m, m', lost, {})
  {}

  lemma CommitExact(m: Mem, pid: string, cid: string)
    requires pid in m.positions
    ensures var lost := set x | x in m.positions && x != pid && m.positions[x].cameraID == cid;
      var (m', r) := AssignCommit(m, pid, cid, Holders(m.positions, {cid}) - {pid});
      && m' == m.(positions := m'.positions, audio := m'.audio) && Lost(m, m', lost, {pid})
      && m'.positions[pid] == m.positions[pid].(cameraID := cid) && r == Ok(m'.positions[pid])
  {
    var lost := set x | x in m.positions && x != pid && m.positions[x].cameraID == cid;
    assert Holders(m.positions, {cid}) - {pid} == lost;
    LateAssignExact(m, pid, cid, lost);
    hide AssignCommit, Lost;
  }

  lemma LostButOne(m: Mem, c: Mem, lost: set<string>, pid: string, p: Position)
    requires lost <= m.positions.Keys && Lost(m, c, lost, {}) && pid in m.positions
    ensures Lost(m, c.(positions := c.positions[pid := p]), lost, {pid})
  {}

  /** An assignment: whoever else held the camera loses it, and is switched off and silenced in OBS. */
  lemma AssignExact(s: Sys, pid: string, cid: string, f: Faults)
    ensures var (s', r) := AssignCamera(s, pid, cid, f);
      if pid == SIMPLE then s' == s && r == Err(ReservedPosition)
      else if pid !in s.mem.positions then s' == s && r == Err(PositionNotFound)
      else if cid !in s.mem.cameras then s' == s && r == Err(CameraNotFound)
      else if !s.mem.cameras[cid].online then s' == s && r == Err(CameraOffline)
      else if s.mem.positions[pid].cameraID == cid then s' == s && r == Ok(s.mem.positions[pid])
      else if UpdateSource(pid) in f then s' == s && r == Err(OBSUnreachable)
      else if pid !in s.obs.inputs then s' == s && r == Err(PositionOBSInputMissing)
      else
        var lost := set x | x in s.mem.positions && x != pid && s.mem.positions[x].cameraID == cid;
        && r == Ok(s.mem.positions[pid].(cameraID := cid))
        && s'.mem == s.mem.(positions := s'.mem.positions, audio := s'.mem.audio)
        && Lost(s.mem, s'.mem, lost, {pid}) && s'.mem.positions[pid] == r.value
        && s'.obs.inputs == s.obs.inputs[pid := s.mem.cameras[cid].sourceURL]
        && SwitchedOff(s.obs, s'.obs, s.mem, lost, f)
  {
    if pid in s.mem.positions && cid in s.mem.cameras && pid in s.obs.inputs {
      var lost := set x | x in s.mem.positions && x != pid && s.mem.positions[x].cameraID == cid;
      assert Holders(s.mem.positions, {cid}) - {pid} == lost;
      CommitExact(s.mem, pid, cid);
      var o := s.obs.(inputs := s.obs.inputs[pid := s.mem.cameras[cid].sourceURL]);
      SettleExact(o, s.mem, lost, f);
      SameTablesSwitchOff(s.obs, o, Settle(o, s.mem, lost, f), s.mem, lost, f);
    }
    hide Settle, AssignCommit, Holders, Lost, SwitchedOff;
  }

  /** The source of an input that exists does not matter for what is switched off. */
  lemma SameTablesSwitchOff(o: Tables, o1: Tables, o': Tables, m: Mem, lost: set<string>, f: Faults)
    requires lost <= m.positions.Keys && SwitchedOff(o1, o', m, lost, f)
    requires o1.inputs.Keys == o.inputs.Keys && o1.enabled == o.enabled && o1.muted == o.muted
    ensures SwitchedOff(o, o', m, lost, f)
  {
    assert (set x | x in lost && x in o.inputs && SetEnabled(x) !in f) ==
           (set x | x in lost && x in o1.inputs && SetEnabled(x) !in f);
    assert forall x :: (IsEnabled(o1, x) <==> IsEnabled(o, x)) && (IsMuted(o1, x) <==> IsMuted(o, x)) &&
                       (IsUnmuted(o1, x) <==> IsUnmuted(o, x));
  }

  lemma UnassignExact(s: Sys, pid: string, f: Faults)
    ensures var (s', r) := UnassignPosition(s, pid, f);
      if pid == SIMPLE then s' == s && r == Err(ReservedPosition)
      else if pid !in s.mem.positions then s' == s && r == Err(PositionNotFound)
      else if s.mem.positions[pid].cameraID == "" then s' == s && r == Ok(s.mem.positions[pid])
      else
        && r == Ok(s.mem.positions[pid].(cameraID := "", isAudio := false))
        && s'.mem == s.mem.(positions := s'.mem.positions, audio := s'.mem.audio)
        && Lost(s.mem, s'.mem, {pid}, {})
        && s'.obs.inputs == s.obs.inputs && SwitchedOff(s.obs, s'.obs, s.mem, {pid}, f)
  {
    if pid in s.mem.positions {
      ClearExact(s.mem, {pid});
      SettleExact(s.obs, s.mem, {pid}, f);
    }
    hide Settle, ClearPositions, SwitchedOff;
  }

  // ----- Audio -----

  /** The audio goes to this position: the source before it loses its flag, and no other position changes. */
  ghost predicate AudioTo(m: Mem, m': Mem, pid: string) {
    && m'.audio == pid && m'.positions.Keys == m.positions.Keys
    && (forall x :: x in m.positions ==>
          m'.positions[x] == m.positions[x].(isAudio := x == pid ||
            (m.positions[x].isAudio && (x != m.audio || x == ""))))
  }

  /** In OBS the source before it is muted, unless it is the same or that call fails. */
  function Silenced(audio: string, pid: string, f: Faults): set<string> {
    if audio != "" && audio != pid && SetMuted(audio) !in f then {audio} else {}
  }

  lemma HandOverExact(o: Tables, audio: string, pid: string, f: Faults)
    ensures var o1 := MutePrevious(o, pid, audio, f);
      var (o', ok) := Mute(o1, pid, false, f);
      && ok == (SetMuted(pid) !in f) && o'.inputs == o.inputs && o'.enabled == o.enabled
      && Becomes(o, o', {}, Silenced(audio, pid, f), if ok then {pid} else {})
      && (!ok ==> o' == o1)
  {
    var o1 := MutePrevious(o, pid, audio, f);
    MuteExact(o, audio, true, f);
    MuteExact(o1, pid, false, f);
    assert SetMuted(pid) in f ==> Mute(o1, pid, false, f).0 == o1;
    assert o1.inputs == o.inputs && o1.enabled == o.enabled && Becomes(o, o1, {}, Silenced(audio, pid, f), {});
    hide Mute, MutePrevious;
    assert pid !in Silenced(audio, pid, f);
    hide Silenced;
  }

  lemma SetAudioExact(s: Sys, pid: string, f: Faults)
    ensures var (s', r) := SetAudioPosition(s, pid, f);
      if pid == SIMPLE then s' == s && r == Err(ReservedPosition)
      else if pid !in s.mem.positions then s' == s && r == Err(PositionNotFound)
      else if s.mem.positions[pid].cameraID == "" then s' == s && r == Err(PositionEmpty)
      else
        && s'.obs.inputs == s.obs.inputs && s'.obs.enabled == s.obs.enabled
        && (if SetMuted(pid) in f
            then r == Err(OBSUnreachable) && s'.mem == s.mem &&
                 Becomes(s.obs, s'.obs, {}, Silenced(s.mem.audio, pid, f), {})
            else
              && r == Ok(s.mem.positions[pid].(isAudio := true))
              && s'.mem == s.mem.(positions := s'.mem.positions, audio := s'.mem.audio)
              && AudioTo(s.mem, s'.mem, pid)
              && Becomes(s.obs, s'.obs, {}, Silenced(s.mem.audio, pid, f), {pid}))
  {
    HandOverExact(s.obs, s.mem.audio, pid, f);
    hide Becomes, Silenced, MutePrevious, Mute;
  }

  // ----- The second sections, whatever has happened since the first -----

  /** A position that is gone by then is not found, and a name that was taken by then is refused; nothing changes. */
  lemma GoneByThen(m: Mem, id: string, name: string, cid: string, hits: set<string>, saveOk: bool)
    ensures id !in m.positions ==>
      && DeleteCommit(m, id, saveOk) == (m, Err(PositionNotFound))
      && AssignCommit(m, id, cid, hits) == (m, Err(PositionNotFound))
      && UnassignCommit(m, id) == (m, Err(PositionNotFound))
      && AudioCommit(m, id, cid) == (m, Err(PositionNotFound))
    ensures NameTaken(m, name, SIMPLE) ==> CreateCommit(m, id, name, saveOk) == (m, Err(PositionNameTaken))
  {
    hide PositionDefs;
  }

  /** The commit of an audio selection flags its position and drops the flag of the source that was read before,
      which by then need not be the source. */
  lemma LateAudioExact(m: Mem, pid: string, prev: string)
    requires pid in m.positions
    ensures var (m', r) := AudioCommit(m, pid, prev);
      && r == Ok(m.positions[pid].(isAudio := true))
      && m' == m.(positions := m'.positions, audio := pid) && m'.positions.Keys == m.positions.Keys
      && (forall x :: x in m.positions ==>
            m'.positions[x] == m.positions[x].(isAudio := x == pid ||
              (m.positions[x].isAudio && (x != prev || prev == ""))))
    ensures AudioInternalCommit(m, pid, prev) == AudioCommit(m, pid, prev).0
  {}

  /** The automatic audio names its position even when that does not exist. */
  lemma LateAudioUnknown(m: Mem, pid: string, prev: string)
    requires pid !in m.positions
    ensures var m' := AudioInternalCommit(m, pid, prev);
      && m' == m.(positions := m'.positions, audio := pid) && m'.positions.Keys == m.positions.Keys
      && (forall x :: x in m.positions ==>
            m'.positions[x] == m.positions[x].(isAudio := m.positions[x].isAudio && (x != prev || prev == "")))
  {}

  /** The commit of an assignment takes the camera from exactly the positions its loop hit. */
  lemma LateAssignExact(m: Mem, pid: string, cid: string, hits: set<string>)
    requires pid in m.positions && hits <= m.positions.Keys - {pid}
    ensures var (m', r) := AssignCommit(m, pid, cid, hits);
      && r == Ok(m.positions[pid].(cameraID := cid)) && pid in m'.positions && m'.positions[pid] == r.value
      && m' == m.(positions := m'.positions, audio := m'.audio) && Lost(m, m', hits, {pid})
  {
    ClearExact(m, hits);
    var c := ClearPositions(m, hits);
    assert c.positions[pid] == m.positions[pid];
    hide ClearPositions;
    LostButOne(m, c, hits, pid, c.positions[pid].(cameraID := cid));
    hide Lost;
  }
}
