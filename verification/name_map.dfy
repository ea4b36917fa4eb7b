/**
 * The resident-name lookup used by the chat ingestion endpoint (src/lib/name-map.ts):
 * a map from canonical resident name to resident id, rebuilt from the `users` roster
 * and kept for five minutes.
 *
 * The clock (`Date.now()`) and the roster query are inputs: `now` and a `RosterRead`.
 */
module NameMap {
  import opened Wrappers
  import opened JsText
  import opened ChatworkUtils

  /** How long a built map is reused: five minutes, in milliseconds. */
  const CacheTtlMs: int := 5 * 60 * 1000

  /** One row of `select id, name` on the `users` table; either column may be null. */
  datatype RosterRow = RosterRow(id: Option<string>, name: Option<string>)

  /** What the roster query returned: the rows (`data`, possibly null) and an error, if any. */
  datatype RosterRead = RosterRead(data: Option<seq<RosterRow>>, error: Option<string>)

  /** The query failed: it reported an error or returned no data. */
  predicate ReadFailed(read: RosterRead) {
    read.error.Some? || read.data.None?
  }

  /** `error?.message` inside a template string: the message, or "undefined" without an error. */
  function ReadErrorMessage(read: RosterRead): string {
    ReadErrorPrefix + (if read.error.Some? then read.error.value else "undefined")
  }

  const ReadErrorPrefix := "users テーブルの読み込みに失敗: "

  /**
   * The query's own message can be read back from the thrown one: two failed reads that
   * report errors give the same text exactly when they report the same error. A read that
   * returns no data without an error is reported like an error whose message is "undefined".
   */
  lemma ReadErrorMessageSpec(a: RosterRead, b: RosterRead)
    ensures |ReadErrorMessage(a)| >= |ReadErrorPrefix| && ReadErrorMessage(a)[..|ReadErrorPrefix|] == ReadErrorPrefix
    ensures a.error.Some? && b.error.Some? ==>
      (ReadErrorMessage(a) == ReadErrorMessage(b) <==> a.error == b.error)
    ensures a.error.None? && b.error == Some("undefined") ==> ReadErrorMessage(a) == ReadErrorMessage(b)
  {
    var x := if a.error.Some? then a.error.value else "undefined";
    var y := if b.error.Some? then b.error.value else "undefined";
    assert (ReadErrorPrefix + x)[..|ReadErrorPrefix|] == ReadErrorPrefix;
    assert (ReadErrorPrefix + x)[|ReadErrorPrefix|..] == x;
    assert (ReadErrorPrefix + y)[|ReadErrorPrefix|..] == y;
  }

  /** `user.id && user.name`: both columns are present and non-empty. */
  predicate Usable(row: RosterRow) {
    row.id.Some? && row.id.value != "" && row.name.Some? && row.name.value != ""
  }

  /** The key a usable row is stored under. */
  function RowKey(row: RosterRow): string
    requires row.name.Some?
  {
    NormalizeName(row.name.value)
  }

  /**
   * The map the loop builds: each usable row in turn sets its canonical name to its id,
   * so a later row overwrites an earlier one with the same key.
   */
  function BuildNameMap(rows: seq<RosterRow>): map<string, string>
  {
    if rows == [] then map[]
    else
      var m := BuildNameMap(rows[..|rows| - 1]);
      var last := rows[|rows| - 1];
      if Usable(last) then m[RowKey(last) := last.id.value] else m
  }

  /** A key is present exactly when some usable row has that canonical name. */
  lemma {:induction false} NameMapKeys(rows: seq<RosterRow>, k: string)
    ensures k in BuildNameMap(rows) <==> exists i :: 0 <= i < |rows| && Usable(rows[i]) && RowKey(rows[i]) == k
  {
    if rows != [] {
      var init := rows[..|rows| - 1];
      NameMapKeys(init, k);
      if exists i :: 0 <= i < |init| && Usable(init[i]) && RowKey(init[i]) == k {
        var i :| 0 <= i < |init| && Usable(init[i]) && RowKey(init[i]) == k;
        assert rows[i] == init[i];
      }
      if exists i :: 0 <= i < |rows| && Usable(rows[i]) && RowKey(rows[i]) == k {
        var i :| 0 <= i < |rows| && Usable(rows[i]) && RowKey(rows[i]) == k;
        if i < |init| {
          assert init[i] == rows[i];
        }
      }
    }
  }

  /**
   * Last write wins: a key maps to the id of the last usable row with that canonical name.
   */
  lemma {:induction false} NameMapLastWins(rows: seq<RosterRow>, j: int)
    requires 0 <= j < |rows| && Usable(rows[j])
    requires forall l :: j < l < |rows| && Usable(rows[l]) ==> RowKey(rows[l]) != RowKey(rows[j])
    ensures RowKey(rows[j]) in BuildNameMap(rows)
    ensures BuildNameMap(rows)[RowKey(rows[j])] == rows[j].id.value
  {
    var init := rows[..|rows| - 1];
    if j < |rows| - 1 {
      assert init[j] == rows[j];
      forall l | j < l < |init| && Usable(init[l]) ensures RowKey(init[l]) != RowKey(init[j]) {
        assert init[l] == rows[l];
      }
      NameMapLastWins(init, j);
    }
  }

  /** Every id in the map is a non-empty id of some usable row. */
  lemma {:induction false} NameMapValues(rows: seq<RosterRow>, k: string)
    requires k in BuildNameMap(rows)
    ensures BuildNameMap(rows)[k] != ""
    ensures exists i :: 0 <= i < |rows| && Usable(rows[i]) && rows[i].id.value == BuildNameMap(rows)[k]
  {
    var init := rows[..|rows| - 1];
    var last := rows[|rows| - 1];
    if Usable(last) && RowKey(last) == k {
      assert Usable(rows[|rows| - 1]);
    } else {
      NameMapValues(init, k);
      var i :| 0 <= i < |init| && Usable(init[i]) && init[i].id.value == BuildNameMap(init)[k];
      assert rows[i] == init[i];
    }
  }

  /** A roster whose names are all blank builds a map with no key but "". */
  lemma BlankNamesShareEmptyKey(rows: seq<RosterRow>, k: string)
    requires forall i :: 0 <= i < |rows| && rows[i].name.Some? ==> IsBlank(rows[i].name.value)
    requires k in BuildNameMap(rows)
    ensures k == ""
  {
    NameMapKeys(rows, k);
  }

  /**
   * What `getNameMap()` returns, given the module state, the time and the roster read:
   * the cached map while it is fresh; otherwise the read's error, or the rebuilt map.
   */
  function Lookup(cached: Option<map<string, string>>, stamp: int, now: int, roster: RosterRead)
    : (r: Result<map<string, string>, string>)
    ensures cached.Some? && now - stamp < CacheTtlMs ==> r == Success(cached.value)
    ensures r.Failure? <==> !(cached.Some? && now - stamp < CacheTtlMs) && ReadFailed(roster)
    ensures r.Failure? ==> r.error == ReadErrorMessage(roster)
    ensures !(cached.Some? && now - stamp < CacheTtlMs) && !ReadFailed(roster) ==>
      r == Success(BuildNameMap(roster.data.value))
  {
    if cached.Some? && now - stamp < CacheTtlMs then Success(cached.value)
    else if ReadFailed(roster) then Failure(ReadErrorMessage(roster))
    else Success(BuildNameMap(roster.data.value))
  }

  /** The reload loop: `for (const user of data) if (user.id && user.name) map.set(...)`. */
  method BuildMapFromRows(rows: seq<RosterRow>) returns (m: map<string, string>)
    ensures m == BuildNameMap(rows)
  {
    m := map[];
    var i := 0;
    while i < |rows|
      invariant 0 <= i <= |rows|
      invariant m == BuildNameMap(rows[..i])
    {
      assert rows[..i + 1][..i] == rows[..i];
      var user := rows[i];
      if Usable(user) {
        m := m[NormalizeName(user.name.value) := user.id.value];
      }
      i := i + 1;
    }
    assert rows[..|rows|] == rows;
  }

  /**
   * The module state of name-map.ts: the last map built (`null` before the first build)
   * and the time it was built.
   */
  class NameMapCache {
    var cachedMap: Option<map<string, string>>
    var cacheTimestamp: int

    /** Module load: no map, timestamp 0. */
    constructor ()
      ensures cachedMap == None && cacheTimestamp == 0
    {
      cachedMap := None;
      cacheTimestamp := 0;
    }

    /**
     * The cached map is used: one exists (an empty map counts, as any `Map` object is truthy)
     * and strictly less than the TTL has passed.
     */
    predicate IsFresh(now: int)
      reads this
    {
      cachedMap.Some? && now - cacheTimestamp < CacheTtlMs
    }

    /**
     * `getNameMap()` at time `now`, with `roster` the answer the query would give.
     * A fresh cache is returned as it is and the roster is not consulted; otherwise a
     * failed read is an error that leaves the state alone, and a successful one
     * rebuilds the map, stores it with the time `now` and returns it.
     */
    method GetNameMap(now: int, roster: RosterRead) returns (r: Result<map<string, string>, string>)
      modifies this
      ensures r == Lookup(old(cachedMap), old(cacheTimestamp), now, roster)
      ensures old(IsFresh(now)) ==> r == Success(old(cachedMap).value) && unchanged(this)
      ensures !old(IsFresh(now)) && ReadFailed(roster) ==>
        r == Failure(ReadErrorMessage(roster)) && unchanged(this)
      ensures !old(IsFresh(now)) && !ReadFailed(roster) ==>
        && r == Success(BuildNameMap(roster.data.value))
        && cachedMap == Some(BuildNameMap(roster.data.value))
        && cacheTimestamp == now
    {
      if cachedMap.Some? && now - cacheTimestamp < CacheTtlMs {
        return Success(cachedMap.value);
      }
      if roster.error.Some? || roster.data.None? {
        return Failure(ReadErrorMessage(roster));
      }
      var m := BuildMapFromRows(roster.data.value);
      cachedMap := Some(m);
      cacheTimestamp := now;
      return Success(m);
    }
  }

  /** The TTL comparison is strict: at exactly five minutes the cache is stale. */
  lemma StaleAtExactTtl(cache: NameMapCache, now: int)
    requires now == cache.cacheTimestamp + CacheTtlMs
    ensures !cache.IsFresh(now)
  {
  }

  /**
   * A reload followed by a call less than five minutes later: the second call returns the
   * map the first one built, even if the roster has changed (or fails) in between.
   */
  method ReloadThenReuse(cache: NameMapCache, t: int, first: RosterRead, dt: int, second: RosterRead)
    returns (r1: Result<map<string, string>, string>, r2: Result<map<string, string>, string>)
    requires !cache.IsFresh(t) && !ReadFailed(first)
    requires 0 <= dt < CacheTtlMs
    modifies cache
    ensures r1 == r2 == Success(BuildNameMap(first.data.value))
    ensures cache.cachedMap == Some(BuildNameMap(first.data.value)) && cache.cacheTimestamp == t
  {
    r1 := cache.GetNameMap(t, first);
    r2 := cache.GetNameMap(t + dt, second);
  }
}
