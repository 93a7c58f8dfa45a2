/** Keyset pagination over (created_at DESC, id DESC): the page envelope, the query it pages over, and whole walks. */
module Pagination {
  import opened Options

  const DEFAULT_LIMIT := 25
  const MAX_LIMIT := 100

  /** A row's key, which never changes, and at the same time the cursor that points at it. */
  datatype Cursor = Cursor(createdAt: int, id: nat)

  datatype Row<V> = Row(key: Cursor, value: V)

  /** The "limit" parameter: absent, not an integer, or an integer. */
  datatype RawLimit = Absent | NotAnInteger | Integer(n: int)

  /** The limit a request gets, or none when it is refused. */
  function ParseLimit(raw: RawLimit): (r: Option<nat>)
    ensures r.Some? ==> 1 <= r.value <= MAX_LIMIT
    ensures r.None? <==> raw.NotAnInteger? || (raw.Integer? && raw.n < 1)
    ensures raw.Integer? && 1 <= raw.n <= MAX_LIMIT ==> r == Some(raw.n)
    ensures raw.Integer? && raw.n > MAX_LIMIT ==> r == Some(100)
    ensures raw.Absent? ==> r == Some(25)
  {
    match raw
    case Absent => Some(DEFAULT_LIMIT)
    case NotAnInteger => None
    case Integer(n) => if n < 1 then None else if n > MAX_LIMIT then Some(MAX_LIMIT) else Some(n)
  }

  datatype Page<T> = Page(data: seq<T>, nextCursor: Option<Cursor>, hasMore: bool)

  /** The page of a result set fetched with one row more than the limit. */
  function NewPage<T>(items: seq<T>, limit: nat, cursorOf: T -> Cursor): Page<T> {
    var hasMore := |items| > limit;
    var data := if hasMore then items[..limit] else items;
    Page(data, if hasMore && |data| > 0 then Some(cursorOf(data[|data| - 1])) else None, hasMore)
  }

  // ----- Order -----

  /** (created_at, id) < (created_at, id), as SQL compares rows. */
  predicate Before(a: Cursor, b: Cursor) {
    a.createdAt < b.createdAt || (a.createdAt == b.createdAt && a.id < b.id)
  }

  ghost predicate Descending(keys: seq<Cursor>) {
    forall i, j :: 0 <= i < j < |keys| ==> Before(keys[j], keys[i])
  }

  lemma {:induction false} SomeGreatest(keys: set<Cursor>) returns (x: Cursor)
    requires keys != {}
    ensures x in keys && forall y :: y in keys && y != x ==> Before(y, x)
  {
    var z :| z in keys;
    if keys == {z} {
      x := z;
    } else {
      var y := SomeGreatest(keys - {z});
      x := if Before(z, y) then y else z;
      assert forall w :: w in keys ==> w == z || w in keys - {z};
    }
  }

  ghost function Greatest(keys: set<Cursor>): (x: Cursor)
    requires keys != {}
    ensures x in keys && forall y :: y in keys && y != x ==> Before(y, x)
  {
    assert exists x :: x in keys && forall y :: y in keys && y != x ==> Before(y, x) by {
      var w := SomeGreatest(keys);
    }
    var x :| x in keys && forall y :: y in keys && y != x ==> Before(y, x);
    x
  }

  /** The keys in descending order. */
  ghost function SortedDesc(keys: set<Cursor>): seq<Cursor> {
    if keys == {} then []
    else
      var x := Greatest(keys);
      [x] + SortedDesc(keys - {x})
  }

  lemma {:induction false} SortedDescIsExact(keys: set<Cursor>)
    ensures Descending(SortedDesc(keys))
    ensures forall x :: x in SortedDesc(keys) <==> x in keys
  {
    if keys != {} {
      var x := Greatest(keys);
      SortedDescIsExact(keys - {x});
      var rest := SortedDesc(keys - {x});
      assert forall i :: 0 <= i < |rest| ==> rest[i] in rest;
    }
  }

  lemma {:induction false} DescendingUnique(a: seq<Cursor>, b: seq<Cursor>)
    requires Descending(a) && Descending(b)
    requires forall x :: x in a <==> x in b
    ensures a == b
  {
    assert |b| > 0 ==> b[0] in a;
    if a != [] {
      assert a[0] in b;
      assert a[0] == b[0];
      forall x ensures x in a[1..] <==> x in b[1..] {
        assert x in a[1..] ==> x in a && x != a[0];
        assert x in b[1..] ==> x in b && x != b[0];
      }
      DescendingUnique(a[1..], b[1..]);
      assert a == [a[0]] + a[1..] && b == [b[0]] + b[1..];
    }
  }

  // ----- The listing query -----

  /** Ordered descending, optionally only what lies before a cursor, at most `limit` rows. */
  datatype Query = Query(before: Option<Cursor>, limit: nat)

  function Matching(keys: set<Cursor>, before: Option<Cursor>): set<Cursor> {
    set k | k in keys && (before.Some? ==> Before(k, before.value))
  }

  /** The keys of the rows the database returns for a query. */
  ghost function Selected(keys: set<Cursor>, q: Query): seq<Cursor> {
    var s := SortedDesc(Matching(keys, q.before));
    if |s| > q.limit then s[..q.limit] else s
  }

  /** The rows under some keys, as they are now. */
  ghost predicate RowsUnder<V>(rows: map<Cursor, V>, keys: seq<Cursor>, r: seq<Row<V>>) {
    |r| == |keys| && forall i :: 0 <= i < |r| ==> keys[i] in rows && r[i] == Row(keys[i], rows[keys[i]])
  }

  function KeyOf<V>(r: Row<V>): Cursor { r.key }

  /** One page of the listing, as keys: the data, whether there is more, and the next cursor. */
  datatype KeyPage = KeyPage(keys: seq<Cursor>, hasMore: bool, next: Option<Cursor>)

  ghost function ListedKeys(keys: set<Cursor>, before: Option<Cursor>, limit: nat): KeyPage {
    var s := SortedDesc(Matching(keys, before));
    if |s| > limit then KeyPage(s[..limit], true, if limit == 0 then None else Some(s[limit - 1]))
    else KeyPage(s, false, None)
  }

  /** A page, told by the rows of the table: at most `limit` of the matching ones, as they are now, newest first; all
      that match and are not on it come after it; there is more exactly when there are such rows, and only
        then a cursor,
      which is the key of the last row. */
  ghost predicate PageOf<V>(rows: map<Cursor, V>, before: Option<Cursor>, limit: nat, page: Page<Row<V>>) {
    && |page.data| <= limit
    && (forall i :: 0 <= i < |page.data| ==>
          page.data[i].key in Matching(rows.Keys, before) && page.data[i].value == rows[page.data[i].key])
    && (forall i, j :: 0 <= i < j < |page.data| ==>
          && page.data[j].key.createdAt <= page.data[i].key.createdAt
          && (page.data[j].key.createdAt == page.data[i].key.createdAt ==> page.data[j].key.id < page.data[i].key.id))
    && (forall k, i :: k in Matching(rows.Keys, before) && !OnPage(page, k) && 0 <= i < |page.data| ==>
          Before(k, page.data[i].key))
    && (page.hasMore <==> exists k :: k in Matching(rows.Keys, before) && !OnPage(page, k))
    && (page.nextCursor.Some? <==> page.hasMore)
    && (page.nextCursor.Some? ==> page.data != [] && page.nextCursor.value == page.data[|page.data| - 1].key)
  }

  predicate OnPage<V>(page: Page<Row<V>>, k: Cursor) {
    exists i :: 0 <= i < |page.data| && page.data[i].key == k
  }

  /** What lies before a cursor in the listing: older, or of the same time with a smaller id. */
  lemma MatchingMeans(keys: set<Cursor>, c: Cursor, k: Cursor)
    ensures k in Matching(keys, None) <==> k in keys
    ensures k in Matching(keys, Some(c)) <==>
      k in keys && k.createdAt <= c.createdAt && (k.createdAt == c.createdAt ==> k.id < c.id)
  {}

  /** Asking for one row more than the limit tells, without counting, whether there is a next page; the extra row is
      not part of the page. */
  lemma OneMoreRowTells<V>(rows: map<Cursor, V>, before: Option<Cursor>, limit: nat, found: seq<Row<V>>)
    requires RowsUnder(rows, Selected(rows.Keys, Query(before, limit + 1)), found)
    ensures var page := NewPage(found, limit, KeyOf);
      var p := ListedKeys(rows.Keys, before, limit);
      RowsUnder(rows, p.keys, page.data) && page.hasMore == p.hasMore && page.nextCursor == p.next
    ensures limit >= 1 ==> PageOf(rows, before, limit, NewPage(found, limit, KeyOf))
  {
    hide SortedDesc;
    if limit >= 1 { PageIsExact(rows, before, limit, NewPage(found, limit, KeyOf)); }
  }

  lemma OnPageIsPrefix<V>(page: Page<Row<V>>, s: seq<Cursor>, k: Cursor)
    requires |page.data| <= |s| && forall i :: 0 <= i < |page.data| ==> page.data[i].key == s[i]
    ensures OnPage(page, k) <==> k in s[..|page.data|]
  {
    if k in s[..|page.data|] {
      var i :| 0 <= i < |page.data| && s[..|page.data|][i] == k;
      assert page.data[i].key == k;
    }
  }

  /** What a descending list has beyond its first n keys. */
  lemma BeyondPrefix(s: seq<Cursor>, n: nat)
    requires Descending(s) && n <= |s|
    ensures forall k, i :: k in s && k !in s[..n] && 0 <= i < n ==> Before(k, s[i])
    ensures n < |s| <==> exists k :: k in s && k !in s[..n]
  {
    assert forall j :: 0 <= j < n ==> s[..n][j] == s[j] && s[j] in s[..n];
    forall k, i | k in s && k !in s[..n] && 0 <= i < n ensures Before(k, s[i]) {
      var j :| 0 <= j < |s| && s[j] == k;
    }
    if n < |s| {
      assert s[n] in s && s[n] !in s[..n];
    } else {
      assert s[..n] == s;
    }
  }

  lemma PageIsExact<V>(rows: map<Cursor, V>, before: Option<Cursor>, limit: nat, page: Page<Row<V>>)
    requires limit >= 1
    requires var p := ListedKeys(rows.Keys, before, limit);
      RowsUnder(rows, p.keys, page.data) && page.hasMore == p.hasMore && page.nextCursor == p.next
    ensures PageOf(rows, before, limit, page)
  {
    var s := SortedDesc(Matching(rows.Keys, before));
    SortedDescIsExact(Matching(rows.Keys, before));
    hide SortedDesc;
    assert forall i :: 0 <= i < |page.data| ==> page.data[i].key == s[i] && s[i] in s;
    BeyondPrefix(s, |page.data|);
    forall k ensures OnPage(page, k) <==> k in s[..|page.data|] { OnPageIsPrefix(page, s, k); }
    hide Matching, OnPage;
  }

  /** A database table that other requests change between fetches. */
  class Table<V> {
    var rows: map<Cursor, V>

    constructor (rows: map<Cursor, V>)
      ensures this.rows == rows
    {
      this.rows := rows;
    }

    /** The rows a query selects, taken greatest first. */
    method Find(q: Query) returns (r: seq<Row<V>>)
      ensures RowsUnder(rows, Selected(rows.Keys, q), r)
    {
      r := [];
      var rest := Matching(rows.Keys, q.before);
      ghost var s := SortedDesc(rest);
      ghost var keys: seq<Cursor> := [];
      while rest != {} && |r| < q.limit
        invariant |r| <= q.limit && rest <= rows.Keys
        invariant RowsUnder(rows, keys, r)
        invariant s == keys + SortedDesc(rest)
        decreases rest
      {
        var k := FindGreatest(rest);
        GreatestUnique(rest, k);
        r := r + [Row(k, rows[k])];
        keys := keys + [k];
        rest := rest - {k};
      }
      assert keys == if |s| > q.limit then s[..q.limit] else s;
    }

    method FindGreatest(keys: set<Cursor>) returns (x: Cursor)
      requires keys != {}
      ensures x in keys && forall y :: y in keys && y != x ==> Before(y, x)
    {
      var rest := keys;
      x :| x in rest;
      rest := rest - {x};
      while rest != {}
        invariant x in keys && rest <= keys
        invariant forall y :: y in keys && y !in rest && y != x ==> Before(y, x)
        decreases rest
      {
        var y :| y in rest;
        rest := rest - {y};
        if Before(x, y) { x := y; }
      }
    }

    /** List: the query is built step by step, then the page is cut out of one row more than the limit. */
    method List(limit: nat, cursor: Option<Cursor>) returns (page: Page<Row<V>>)
      ensures limit >= 1 ==> PageOf(rows, cursor, limit, page)
      ensures var p := ListedKeys(rows.Keys, cursor, limit);
        RowsUnder(rows, p.keys, page.data) && page.hasMore == p.hasMore && page.nextCursor == p.next
    {
      var q := Query(None, limit + 1);
      if cursor.Some? {
        q := q.(before := cursor);
      }
      var found := Find(q);
      page := NewPage(found, limit, KeyOf);
      OneMoreRowTells(rows, cursor, limit, found);
    }
  }

  lemma GreatestUnique(keys: set<Cursor>, k: Cursor)
    requires k in keys && forall y :: y in keys && y != k ==> Before(y, k)
    ensures SortedDesc(keys) == [k] + SortedDesc(keys - {k})
  {
    assert Greatest(keys) == k;
  }

  // ----- Walks -----

  /** A page is descending and lies before its cursor; a matching key that is not on it is on a later one. */
  lemma PageEffect(keys: set<Cursor>, before: Option<Cursor>, limit: nat)
    requires limit >= 1
    ensures var p := ListedKeys(keys, before, limit);
      && Descending(p.keys)
      && (forall i :: 0 <= i < |p.keys| ==> p.keys[i] in Matching(keys, before))
      && (p.hasMore ==> |p.keys| == limit && p.next == Some(p.keys[limit - 1]))
      && (forall k :: k in Matching(keys, before) ==> k in p.keys || (p.hasMore && Before(k, p.next.value)))
  {
    var s := SortedDesc(Matching(keys, before));
    SortedDescIsExact(Matching(keys, before));
    assert forall i :: 0 <= i < |s| ==> s[i] in s;
    hide SortedDesc;
    forall k | k in Matching(keys, before)
      ensures k in s[..if |s| > limit then limit else |s|] || (|s| > limit && Before(k, s[limit - 1]))
    {
      assert k in s;
      var i :| 0 <= i < |s| && s[i] == k;
      if i < limit { assert s[..if |s| > limit then limit else |s|][i] == k; }
    }
  }

  /** The fetches of a walk, one table state each: all but the last page have more, the last has not. */
  ghost predicate IsWalk(tables: seq<set<Cursor>>, before: Option<Cursor>, limit: nat)
    decreases |tables|
  {
    tables != [] &&
    (var p := ListedKeys(tables[0], before, limit);
     if p.hasMore then IsWalk(tables[1..], p.next, limit) else |tables| == 1)
  }

  /** The keys of everything a walk emits, in order. */
  ghost function Emitted(tables: seq<set<Cursor>>, before: Option<Cursor>, limit: nat): seq<Cursor>
    decreases |tables|
  {
    if tables == [] then []
    else
      var p := ListedKeys(tables[0], before, limit);
      if p.hasMore then p.keys + Emitted(tables[1..], p.next, limit) else p.keys
  }

  /** Whatever is written between the fetches: what a walk emits is strictly descending and lies before its cursor,
      so no row comes twice. */
  lemma {:induction false} WalkDescends(tables: seq<set<Cursor>>, before: Option<Cursor>, limit: nat)
    requires limit >= 1 && IsWalk(tables, before, limit)
    ensures var out := Emitted(tables, before, limit);
      Descending(out) && (before.Some? ==> forall i :: 0 <= i < |out| ==> Before(out[i], before.value))
    decreases |tables|
  {
    PageEffect(tables[0], before, limit);
    var p := ListedKeys(tables[0], before, limit);
    if p.hasMore {
      WalkDescends(tables[1..], p.next, limit);
      assert p.keys[limit - 1] in Matching(tables[0], before);
      hide ListedKeys;
      DescendingConcat(p.keys, Emitted(tables[1..], p.next, limit));
    }
  }

  lemma DescendingConcat(a: seq<Cursor>, b: seq<Cursor>)
    requires Descending(a) && Descending(b)
    requires a != [] && forall i :: 0 <= i < |b| ==> Before(b[i], a[|a| - 1])
    ensures Descending(a + b)
  {}

  /** Every row a walk emits was in the table of some fetch. */
  lemma {:induction false} WalkIsSound(tables: seq<set<Cursor>>, before: Option<Cursor>, limit: nat)
    requires limit >= 1
    ensures forall k :: k in Emitted(tables, before, limit) ==> exists t :: 0 <= t < |tables| && k in tables[t]
    decreases |tables|
  {
    if tables != [] {
      PageEffect(tables[0], before, limit);
      var p := ListedKeys(tables[0], before, limit);
      WalkIsSound(tables[1..], p.next, limit);
      hide ListedKeys;
      forall k | k in Emitted(tables, before, limit) ensures exists t :: 0 <= t < |tables| && k in tables[t] {
        if k in p.keys {
          assert k in tables[0];
        } else {
          var t :| 0 <= t < |tables[1..]| && k in tables[1..][t];
          assert tables[t + 1] == tables[1..][t];
        }
      }
    }
  }

  /** A row that is in the table at every fetch is emitted. */
  lemma {:induction false} WalkIsComplete(tables: seq<set<Cursor>>, before: Option<Cursor>, limit: nat, k: Cursor)
    requires limit >= 1 && IsWalk(tables, before, limit)
    requires before.Some? ==> Before(k, before.value)
    requires forall t :: 0 <= t < |tables| ==> k in tables[t]
    ensures k in Emitted(tables, before, limit)
    decreases |tables|
  {
    PageEffect(tables[0], before, limit);
    var p := ListedKeys(tables[0], before, limit);
    assert k in Matching(tables[0], before);
    if p.hasMore && k !in p.keys {
      hide ListedKeys;
      WalkIsComplete(tables[1..], p.next, limit, k);
    }
  }

  /** No skips and no repeats under writes: over any sequence of table states, one per fetch, a completed walk from
      the start emits each row that is there throughout at exactly one place. */
  lemma WalkEmitsOnce(tables: seq<set<Cursor>>, limit: nat, k: Cursor) returns (i: nat)
    requires limit >= 1 && IsWalk(tables, None, limit)
    requires forall t :: 0 <= t < |tables| ==> k in tables[t]
    ensures var out := Emitted(tables, None, limit);
      i < |out| && out[i] == k && forall j :: 0 <= j < |out| && out[j] == k ==> j == i
  {
    WalkDescends(tables, None, limit);
    WalkIsComplete(tables, None, limit, k);
    i :| 0 <= i < |Emitted(tables, None, limit)| && Emitted(tables, None, limit)[i] == k;
  }

  // ----- A table nobody writes to -----

  lemma TailIsBelow(s: seq<Cursor>, limit: nat)
    requires Descending(s) && 1 <= limit <= |s|
    ensures forall x :: x in s[limit..] <==> x in s && Before(x, s[limit - 1])
  {
    forall x | x in s && Before(x, s[limit - 1]) ensures x in s[limit..] {
      var i :| 0 <= i < |s| && s[i] == x;
      assert i >= limit;
      assert s[limit..][i - limit] == x;
    }
  }

  /** What is left after a page is what matches its cursor. */
  lemma RestMatches(keys: set<Cursor>, before: Option<Cursor>, limit: nat)
    requires limit >= 1 && |SortedDesc(Matching(keys, before))| > limit
    ensures var s := SortedDesc(Matching(keys, before));
      && SortedDesc(Matching(keys, Some(s[limit - 1]))) == s[limit..]
      && Matching(keys, Some(s[limit - 1])) < Matching(keys, before)
  {
    var s := SortedDesc(Matching(keys, before));
    var c := s[limit - 1];
    SortedDescIsExact(Matching(keys, before));
    SortedDescIsExact(Matching(keys, Some(c)));
    TailIsBelow(s, limit);
    assert c in s;
    BeforeTransitive(keys, before, c);
    hide SortedDesc;
    DescendingUnique(SortedDesc(Matching(keys, Some(c))), s[limit..]);
    assert c !in Matching(keys, Some(c));
  }

  lemma BeforeTransitive(keys: set<Cursor>, before: Option<Cursor>, c: Cursor)
    requires c in Matching(keys, before)
    ensures Matching(keys, Some(c)) <= Matching(keys, before)
  {}

  /** On a static table every walk ends, and its pages put together are the whole list in descending order. */
  lemma {:induction false} StaticWalk(keys: set<Cursor>, before: Option<Cursor>, limit: nat)
    returns (tables: seq<set<Cursor>>)
    requires limit >= 1
    ensures forall t :: 0 <= t < |tables| ==> tables[t] == keys
    ensures IsWalk(tables, before, limit)
    ensures Emitted(tables, before, limit) == SortedDesc(Matching(keys, before))
    decreases Matching(keys, before)
  {
    var s := SortedDesc(Matching(keys, before));
    if |s| > limit {
      RestMatches(keys, before, limit);
      hide SortedDesc;
      var rest := StaticWalk(keys, Some(s[limit - 1]), limit);
      tables := [keys] + rest;
      assert tables[1..] == rest;
      assert s == s[..limit] + s[limit..];
    } else {
      tables := [keys];
    }
  }
}
