/** OBS as the orchestrator sees it: one input per position, keyed here by position id.

    The real input name is "pos_" followed by the id; the prefix is injective (InputNameInjective),
    so keying by id loses nothing. A call that the environment fails changes nothing. */
module Obs {
  datatype Tables = Tables(inputs: map<string, string>, enabled: map<string, bool>, muted: map<string, bool>)

  /** The calls an operation makes to the outside; each one is made at most once per operation. */
  datatype Call =
    | CreateInput(id: string)
    | UpdateSource(id: string)
    | SetEnabled(id: string)
    | SetMuted(id: string)
    | RemoveInput(id: string)
    | SavePositions
    | SaveScenes

  /** The calls the environment fails during one operation. */
  type Faults = set<Call>

  datatype UpdateResult = Updated | InputMissing | Unreachable

  function InputName(id: string): string { "pos_" + id }

  lemma InputNameInjective(a: string, b: string)
    requires InputName(a) == InputName(b)
    ensures a == b
  {
    assert InputName(a)[4..] == a && InputName(b)[4..] == b;
  }

  predicate IsEnabled(o: Tables, id: string) { id in o.enabled && o.enabled[id] }

  predicate IsMuted(o: Tables, id: string) { id in o.muted && o.muted[id] }

  predicate IsUnmuted(o: Tables, id: string) { id in o.muted && !o.muted[id] }

  /** What is heard after a change, input by input: these are muted, these unmuted, and every other is as it was. */
  ghost predicate MutesBecome(o: Tables, o': Tables, muted: set<string>, unmuted: set<string>) {
    && (forall x :: IsMuted(o', x) <==> x in muted || (IsMuted(o, x) && x !in unmuted))
    && (forall x :: IsUnmuted(o', x) <==> x in unmuted || (IsUnmuted(o, x) && x !in muted))
  }

  /** The same with what is enabled: these are off as well. */
  ghost predicate Becomes(o: Tables, o': Tables, off: set<string>, muted: set<string>, unmuted: set<string>) {
    (forall x :: IsEnabled(o', x) <==> IsEnabled(o, x) && x !in off) && MutesBecome(o, o', muted, unmuted)
  }

  function Create(o: Tables, id: string, f: Faults): (Tables, bool) {
    if CreateInput(id) in f || id in o.inputs then (o, false)
    else (o.(inputs := o.inputs[id := ""], enabled := o.enabled[id := false]), true)
  }

  function Update(o: Tables, id: string, url: string, f: Faults): (Tables, UpdateResult) {
    if UpdateSource(id) in f then (o, Unreachable)
    else if id !in o.inputs then (o, InputMissing)
    else (o.(inputs := o.inputs[id := url]), Updated)
  }

  function Enable(o: Tables, id: string, enabled: bool, f: Faults): (Tables, bool) {
    if SetEnabled(id) in f || id !in o.inputs then (o, false)
    else (o.(enabled := o.enabled[id := enabled]), true)
  }

  function Mute(o: Tables, id: string, muted: bool, f: Faults): (Tables, bool) {
    if SetMuted(id) in f then (o, false)
    else (o.(muted := o.muted[id := muted]), true)
  }

  function Remove(o: Tables, id: string, f: Faults): (Tables, bool) {
    if RemoveInput(id) in f then (o, false)
    else (o.(inputs := o.inputs - {id}, enabled := o.enabled - {id}, muted := o.muted - {id}), true)
  }

  /** The in-memory OBS: every call updates one of three tables in place. */
  class Mock {
    var inputs: map<string, string>
    var enabled: map<string, bool>
    var muted: map<string, bool>

    ghost function View(): Tables reads this { Tables(inputs, enabled, muted) }

    constructor (t: Tables)
      ensures View() == t
    {
      inputs, enabled, muted := t.inputs, t.enabled, t.muted;
    }

    method CreatePositionInput(id: string, f: Faults) returns (ok: bool)
      modifies this
      ensures (View(), ok) == Create(old(View()), id, f)
    {
      if CreateInput(id) in f || id in inputs {
        return false;
      }
      inputs := inputs[id := ""];
      enabled := enabled[id := false];
      ok := true;
    }

    method UpdatePositionSource(id: string, url: string, f: Faults) returns (r: UpdateResult)
      modifies this
      ensures (View(), r) == Update(old(View()), id, url, f)
    {
      if UpdateSource(id) in f {
        return Unreachable;
      }
      if id !in inputs {
        return InputMissing;
      }
      inputs := inputs[id := url];
      r := Updated;
    }

    method SetPositionEnabled(id: string, on: bool, f: Faults) returns (ok: bool)
      modifies this
      ensures (View(), ok) == Enable(old(View()), id, on, f)
    {
      if SetEnabled(id) in f || id !in inputs {
        return false;
      }
      enabled := enabled[id := on];
      ok := true;
    }

    method SetInputAudioMuted(id: string, on: bool, f: Faults) returns (ok: bool)
      modifies this
      ensures (View(), ok) == Mute(old(View()), id, on, f)
    {
      if SetMuted(id) in f {
        return false;
      }
      muted := muted[id := on];
      ok := true;
    }

    method RemovePositionInput(id: string, f: Faults) returns (ok: bool)
      modifies this
      ensures (View(), ok) == Remove(old(View()), id, f)
    {
      if RemoveInput(id) in f {
        return false;
      }
      inputs := inputs - {id};
      enabled := enabled - {id};
      muted := muted - {id};
      ok := true;
    }
  }
}
