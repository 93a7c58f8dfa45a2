/** The values the orchestrator keeps behind its mutex, and the errors its operations return. */
module Model {
  /** The reserved hidden position used for single-camera cuts. */
  const SIMPLE := "__simple__"

  /** Longest allowed position name, in runes. */
  const MAX_POSITION_NAME_LENGTH := 100

  /** How long, in nanoseconds, a camera stays offline before it is pruned. */
  const OFFLINE_REMOVE_AFTER := 60_000_000_000

  datatype Error =
    | CameraNotFound
    | CameraOffline
    | OBSUnreachable
    | PositionNotFound
    | PositionNameEmpty
    | PositionNameTooLong
    | PositionNameTaken
    | PositionOBSInputMissing
    | PositionEmpty
    | SceneNotFound
    | SceneNameRequired
    | SceneNameTaken
    | SceneIsLive
    | ReservedPosition
    | PreviewEmpty
    | SourceUnavailable
    | SaveFailed

  datatype Outcome<+T> = Ok(value: T) | Err(error: Error)

  /** A camera; the key it is stored under is both its id and its name. */
  datatype Camera = Camera(sourceURL: string, online: bool, lastSeenAt: int)

  /** A position; the key it is stored under is its id. An empty cameraID means unassigned. */
  datatype Position = Position(name: string, cameraID: string, isAudio: bool)

  /** A scene; the key it is stored under is its id. */
  datatype Scene = Scene(name: string, positionIDs: seq<string>)

  datatype LiveKind = KindNone | KindCamera | KindScene

  datatype LiveState = LiveState(previewKind: LiveKind, previewID: string, liveKind: LiveKind, liveID: string)

  /** What a store file holds for one position or one scene. */
  datatype PositionDef = PositionDef(id: string, name: string)
  datatype SceneDef = SceneDef(id: string, name: string, positionIDs: seq<string>)

  /** A store file, and whether the latest attempt to save to it succeeded (false before any attempt). */
  datatype Store<T> = Store(saved: seq<T>, ok: bool)

  /** Everything guarded by the orchestrator's mutex, with the two files that are written under it. */
  datatype Mem = Mem(
    base: string,
    cameras: map<string, Camera>,
    offlineSince: map<string, int>,
    mediaConnected: bool,
    positions: map<string, Position>,
    scenes: map<string, Scene>,
    audio: string,
    live: LiveState,
    hiddenReady: bool,
    positionStore: Store<PositionDef>,
    sceneStore: Store<SceneDef>)
}

/** Names: trimming, validation, source URLs and the byte order of ids. */
module Names {
  import opened Model

  /** The runes Unicode calls white space. */
  predicate IsSpace(c: char) {
    '\t' <= c <= '\r' || c == ' ' || c == '\U{85}' || c == '\U{A0}' || c == '\U{1680}' ||
    '\U{2000}' <= c <= '\U{200A}' || c == '\U{2028}' || c == '\U{2029}' ||
    c == '\U{202F}' || c == '\U{205F}' || c == '\U{3000}'
  }

  /** Removes leading and trailing white space. */
  function TrimSpace(s: string): (t: string)
    ensures t == "" || (!IsSpace(t[0]) && !IsSpace(t[|t| - 1]))
    ensures |t| <= |s|
  {
    if s == "" then ""
    else if IsSpace(s[0]) then TrimSpace(s[1..])
    else if IsSpace(s[|s| - 1]) then TrimSpace(s[..|s| - 1])
    else s
  }

  /** Nothing but leading and trailing white space is removed. */
  lemma {:induction false} TrimSpaceExact(s: string) returns (before: string, after: string)
    ensures s == before + TrimSpace(s) + after
    ensures forall c :: c in before || c in after ==> IsSpace(c)
  {
    before, after := "", "";
    hide IsSpace;
    if s != "" && IsSpace(s[0]) {
      var b, a := TrimSpaceExact(s[1..]);
      before, after := [s[0]] + b, a;
      assert s == [s[0]] + s[1..];
    } else if s != "" && IsSpace(s[|s| - 1]) {
      var b, a := TrimSpaceExact(s[..|s| - 1]);
      before, after := b, a + [s[|s| - 1]];
      assert s == s[..|s| - 1] + [s[|s| - 1]];
    }
  }

  function ValidatePositionName(name: string): (r: Outcome<string>)
  {
    var trimmed := TrimSpace(name);
    if trimmed == "" then Err(PositionNameEmpty)
    else if |trimmed| > MAX_POSITION_NAME_LENGTH then Err(PositionNameTooLong)
    else Ok(trimmed)
  }

  function ValidateSceneName(name: string): (r: Outcome<string>)
  {
    var trimmed := TrimSpace(name);
    if trimmed == "" then Err(SceneNameRequired) else Ok(trimmed)
  }

  function TrimSlashes(s: string): (t: string)
    ensures t == "" || t[|t| - 1] != '/'
  {
    if s != "" && s[|s| - 1] == '/' then TrimSlashes(s[..|s| - 1]) else s
  }

  /** Nothing but trailing slashes is removed. */
  lemma {:induction false} TrimSlashesExact(s: string)
    ensures TrimSlashes(s) <= s
    ensures forall k :: |TrimSlashes(s)| <= k < |s| ==> s[k] == '/'
  {
    if s != "" && s[|s| - 1] == '/' { TrimSlashesExact(s[..|s| - 1]); }
  }

  /** The URL a camera is pulled from: a function of the configured base and the camera's name alone. */
  function SourceURL(base: string, name: string): string {
    TrimSlashes(base) + "/" + name
  }

  /** Strict lexicographic order, the order the stores are sorted by. */
  predicate Less(a: string, b: string) {
    b != "" && (a == "" || a[0] < b[0] || (a[0] == b[0] && Less(a[1..], b[1..])))
  }

  lemma {:induction false} LessTrichotomy(a: string, b: string)
    ensures !(Less(a, b) && Less(b, a))
    ensures a == b || Less(a, b) || Less(b, a)
    ensures a == b ==> !Less(a, b)
  {
    if a != "" && b != "" {
      LessTrichotomy(a[1..], b[1..]);
      assert a == [a[0]] + a[1..] && b == [b[0]] + b[1..];
    }
  }

  /** The two agree below k, where b goes on and a ends or has the smaller character. */
  predicate SmallerAt(a: string, b: string, k: int) {
    0 <= k <= |a| && k < |b| && (forall i :: 0 <= i < k ==> a[i] == b[i]) && (k == |a| || a[k] < b[k])
  }

  lemma {:induction false} LessExact(a: string, b: string)
    ensures Less(a, b) <==> exists k :: SmallerAt(a, b, k)
  {
    if a != "" && b != "" && a[0] == b[0] {
      LessExact(a[1..], b[1..]);
      assert forall i :: 1 <= i < |a| ==> a[i] == a[1..][i - 1];
      assert forall i :: 1 <= i < |b| ==> b[i] == b[1..][i - 1];
      if Less(a, b) {
        var k :| SmallerAt(a[1..], b[1..], k);
        assert SmallerAt(a, b, k + 1);
      }
      forall k | SmallerAt(a, b, k) ensures SmallerAt(a[1..], b[1..], k - 1) {
        assert k != 0;
        assert forall i :: 0 <= i < k - 1 ==> a[1..][i] == a[i + 1] && b[1..][i] == b[i + 1];
      }
    } else if Less(a, b) {
      assert SmallerAt(a, b, 0);
    }
  }

  lemma {:induction false} LessTransitive(a: string, b: string, c: string)
    requires Less(a, b) && Less(b, c)
    ensures Less(a, c)
  {
    if a != "" && a[0] == b[0] == c[0] {
      LessTransitive(a[1..], b[1..], c[1..]);
    }
  }

  lemma {:induction false} SomeLeast(ids: set<string>) returns (x: string)
    requires ids != {}
    ensures x in ids && forall y :: y in ids && y != x ==> Less(x, y)
  {
    var z :| z in ids;
    if ids == {z} {
      x := z;
    } else {
      var y := SomeLeast(ids - {z});
      LessTrichotomy(y, z);
      if Less(y, z) {
        x := y;
      } else {
        x := z;
        forall w | w in ids && w != z ensures Less(z, w) {
          if w != y { LessTransitive(z, y, w); }
        }
      }
    }
  }

  ghost function Least(ids: set<string>): (x: string)
    requires ids != {}
    ensures x in ids && forall y :: y in ids && y != x ==> Less(x, y)
  {
    assert exists x :: x in ids && forall y :: y in ids && y != x ==> Less(x, y) by {
      var w := SomeLeast(ids);
    }
    var x :| x in ids && forall y :: y in ids && y != x ==> Less(x, y);
    x
  }

  ghost predicate Ascending(ids: seq<string>) {
    forall i, j :: 0 <= i < j < |ids| ==> Less(ids[i], ids[j])
  }

  /** The elements of a set of ids in strictly ascending order. */
  ghost function SortedIds(ids: set<string>): seq<string> {
    if ids == {} then []
    else
      var x := Least(ids);
      [x] + SortedIds(ids - {x})
  }

  lemma {:induction false} SortedIdsExact(ids: set<string>)
    ensures Ascending(SortedIds(ids))
    ensures forall x :: x in SortedIds(ids) <==> x in ids
  {
    if ids != {} {
      var x := Least(ids);
      SortedIdsExact(ids - {x});
      var rest := SortedIds(ids - {x});
      assert forall i :: 0 <= i < |rest| ==> rest[i] in rest;
    }
  }

  /** There is only one strictly ascending enumeration of a set. */
  lemma {:induction false} AscendingUnique(a: seq<string>, b: seq<string>)
    requires Ascending(a) && Ascending(b)
    requires forall x :: x in a <==> x in b
    ensures a == b
  {
    assert |b| > 0 ==> b[0] in a;
    if a != [] {
      assert a[0] in b;
      var i :| 0 <= i < |b| && b[i] == a[0];
      assert b[0] in a;
      LessTrichotomy(a[0], b[0]);
      assert a[0] == b[0];
      forall x ensures x in a[1..] <==> x in b[1..] {
        LessTrichotomy(a[0], a[0]);
        if x in a[1..] {
          assert x != a[0];
          assert x in a && x in b;
        }
        if x in b[1..] {
          assert x != b[0];
          assert x in a && x in b;
        }
      }
      AscendingUnique(a[1..], b[1..]);
      assert a == [a[0]] + a[1..] && b == [b[0]] + b[1..];
    }
  }
}
