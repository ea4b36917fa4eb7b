/**
 * The chat ingestion webhook (src/app/api/chatwork-sync/route.ts): a batch of chat
 * messages is authenticated, each message is linked to a resident through the name map,
 * and the linked messages are upserted as chat logs.
 *
 * The request (secret, header, parsed body), the clock, the roster read behind the name
 * map and the outcome of the upsert are inputs; the response is the result.
 */
module ChatworkSync {
  import opened Wrappers
  import opened JsText
  import opened JsArray
  import opened ChatworkUtils
  import opened NameMap

  /** One element of the posted JSON; a field that is absent or null is `None`. */
  datatype RawEntry = RawEntry(
    datetime: Option<string>,
    resident_name: Option<string>,
    message: Option<string>,
    staff_name: Option<string>,
    message_id: Option<string>)

  /** The parsed request body. */
  datatype Body =
    | MalformedJson
    | JsonArray(items: seq<RawEntry>)
    | JsonValue(item: RawEntry)

  /** A row for the `chat_logs` table. */
  datatype ChatLogRow = ChatLogRow(
    id: string,
    user_id: string,
    staff_name: Option<string>,
    message: string,
    send_time: string,
    category_tag: string)

  /** What the loop does with one entry. */
  datatype EntryOutcome =
    | Dropped
    | Skipped(name: string)
    | Accepted(row: ChatLogRow)

  /** The outcome of the `upsert` call. */
  datatype UpsertOutcome = UpsertOk | UpsertError(message: string)

  /** The JSON responses of the endpoint. */
  datatype Response =
    | Unauthorized
    | InvalidJson
    | NoEntries
    | NameMapFailed(error: string)
    | UpsertFailed(error: string)
    | SyncComplete(inserted: nat, skipped: nat, skippedNames: seq<string>)

  /** The HTTP status of a response. */
  function Status(r: Response): (code: int)
    ensures code == 200 <==> r.NoEntries? || r.SyncComplete?
    ensures code == 500 <==> r.NameMapFailed? || r.UpsertFailed?
    ensures code == 401 <==> r.Unauthorized?
    ensures code == 400 <==> r.InvalidJson?
  {
    match r
    case Unauthorized => 401
    case InvalidJson => 400
    case NameMapFailed(_) => 500
    case UpsertFailed(_) => 500
    case _ => 200
  }

  /** `!SECRET || header !== SECRET` fails: the secret is configured, non-empty and equal to the header. */
  predicate Authorized(secret: Option<string>, header: Option<string>) {
    secret.Some? && secret.value != "" && header == secret
  }

  /** `Array.isArray(body) ? body : [body]`, or `None` when the body is not JSON. */
  function Entries(body: Body): (r: Option<seq<RawEntry>>)
    ensures r.None? <==> body.MalformedJson?
    ensures body.JsonArray? ==> r == Some(body.items)
    ensures body.JsonValue? ==> r == Some([body.item])
  {
    match body
    case MalformedJson => None
    case JsonArray(items) => Some(items)
    case JsonValue(item) => Some([item])
  }

  /** `field?.trim()` read as a condition: a missing field counts as the empty string. */
  function TrimmedOrEmpty(field: Option<string>): string {
    if field.Some? then Trim(field.value) else ""
  }

  /** `entry.staff_name?.trim() || null` */
  function StaffName(field: Option<string>): (r: Option<string>)
    ensures r.Some? ==> r.value != "" && field.Some? && r.value == Trim(field.value)
    ensures r.None? ==> field.None? || IsBlank(field.value)
  {
    TrimEmptyIffBlank(if field.Some? then field.value else "");
    if TrimmedOrEmpty(field) == "" then None else Some(TrimmedOrEmpty(field))
  }

  /** The name reported for a skipped entry: `rawName || "(empty)"`. */
  function SkippedName(e: RawEntry): (r: string)
    ensures r != ""
    ensures e.resident_name.Some? && e.resident_name.value != "" ==> r == e.resident_name.value
    ensures e.resident_name.GetOr("") == "" ==> r == "(empty)"
  {
    var raw := e.resident_name.GetOr("");
    if raw == "" then "(empty)" else raw
  }

  /** The resident id the name map gives for the entry's name, if any (`""` is not an id). */
  function ResidentId(e: RawEntry, m: map<string, string>): (r: Option<string>)
    ensures var key := NormalizeName(e.resident_name.GetOr(""));
      && (r.Some? <==> key != "" && key in m && m[key] != "")
      && (r.Some? ==> r.value == m[key])
  {
    var key := NormalizeName(e.resident_name.GetOr(""));
    if key != "" && key in m && m[key] != "" then Some(m[key]) else None
  }

  /**
   * One iteration of the loop: entries without an id, a message or a usable time are
   * dropped; entries whose name does not resolve are skipped under their raw name;
   * the others become a chat-log row.
   */
  function ClassifyEntry(e: RawEntry, m: map<string, string>): EntryOutcome {
    var id := TrimmedOrEmpty(e.message_id);
    var message := TrimmedOrEmpty(e.message);
    if id == "" || message == "" then Dropped
    else
      var sendTime := ToJstTimestamp(e.datetime);
      if sendTime.None? then Dropped
      else
        var userId := ResidentId(e, m);
        if userId.None? then Skipped(SkippedName(e))
        else Accepted(ChatLogRow(id, userId.value, StaffName(e.staff_name), message,
                                 sendTime.value, InferCategoryTag(message)))
  }

  /** An entry is dropped exactly when its trimmed id or message is empty or its time does not convert. */
  lemma ClassifyDropped(e: RawEntry, m: map<string, string>)
    ensures ClassifyEntry(e, m).Dropped? <==>
      TrimmedOrEmpty(e.message_id) == "" || TrimmedOrEmpty(e.message) == "" || ToJstTimestamp(e.datetime).None?
  {
  }

  /** An entry is skipped when its name does not resolve, and is reported under its raw name or `"(empty)"`. */
  lemma ClassifySkipped(e: RawEntry, m: map<string, string>)
    requires ClassifyEntry(e, m).Skipped?
    ensures var name := ClassifyEntry(e, m).name;
      && name == SkippedName(e) && ResidentId(e, m).None?
      && (name == "(empty)" || Some(name) == e.resident_name)
  {
  }

  /**
   * An accepted entry becomes the row of its trimmed id and message, its `+09:00` time,
   * its resident, its staff name and the tag of its message.
   */
  lemma ClassifyAccepted(e: RawEntry, m: map<string, string>)
    requires ClassifyEntry(e, m).Accepted?
    ensures var row := ClassifyEntry(e, m).row;
      && row.id == TrimmedOrEmpty(e.message_id) != ""
      && row.message == TrimmedOrEmpty(e.message) != ""
      && Some(row.send_time) == ToJstTimestamp(e.datetime)
      && IsJstDateTime(row.send_time)
      && Some(row.user_id) == ResidentId(e, m)
      && row.staff_name == StaffName(e.staff_name)
      && row.category_tag == InferCategoryTag(row.message)
  {
  }

  /** What the loop does with each entry, in batch order. */
  function Outcomes(entries: seq<RawEntry>, m: map<string, string>): seq<EntryOutcome> {
    MapSeq(entries, e => ClassifyEntry(e, m))
  }

  /** The outcome at position `i` is the classification of the `i`-th entry. */
  lemma OutcomeAt(entries: seq<RawEntry>, m: map<string, string>, i: int)
    requires 0 <= i < |entries|
    ensures |Outcomes(entries, m)| == |entries|
    ensures Outcomes(entries, m)[i] == ClassifyEntry(entries[i], m)
  {
    MapSeqAt(entries, e => ClassifyEntry(e, m), i);
  }

  /** The rows pushed onto `records` for a sequence of outcomes. */
  function AcceptedRows(outs: seq<EntryOutcome>): seq<ChatLogRow> {
    if outs == [] then []
    else
      var o := outs[|outs| - 1];
      AcceptedRows(outs[..|outs| - 1]) + (if o.Accepted? then [o.row] else [])
  }

  /** The names pushed onto `skipped` for a sequence of outcomes. */
  function SkippedNamesOf(outs: seq<EntryOutcome>): seq<string> {
    if outs == [] then []
    else
      var o := outs[|outs| - 1];
      SkippedNamesOf(outs[..|outs| - 1]) + (if o.Skipped? then [o.name] else [])
  }

  predicate IsDropped(o: EntryOutcome) {
    o.Dropped?
  }

  /** The `records` array after the loop has seen `entries`. */
  function Records(entries: seq<RawEntry>, m: map<string, string>): seq<ChatLogRow> {
    AcceptedRows(Outcomes(entries, m))
  }

  /** The `skipped` array after the loop has seen `entries`. */
  function SkippedNames(entries: seq<RawEntry>, m: map<string, string>): seq<string> {
    SkippedNamesOf(Outcomes(entries, m))
  }

  /** The outcomes of the entries the loop drops without reporting them. */
  function DroppedOutcomes(entries: seq<RawEntry>, m: map<string, string>): seq<EntryOutcome> {
    Filter(Outcomes(entries, m), IsDropped)
  }

  /** One more outcome adds its row, if it is accepted, and its name, if it is skipped. */
  lemma FoldsSnoc(outs: seq<EntryOutcome>, o: EntryOutcome)
    ensures AcceptedRows(outs + [o]) == AcceptedRows(outs) + (if o.Accepted? then [o.row] else [])
    ensures SkippedNamesOf(outs + [o]) == SkippedNamesOf(outs) + (if o.Skipped? then [o.name] else [])
  {
    assert (outs + [o])[..|outs|] == outs;
  }

  /** The folds over the first `i + 1` outcomes extend those over the first `i` by outcome `i`. */
  lemma FoldsStep(outs: seq<EntryOutcome>, i: int)
    requires 0 <= i < |outs|
    ensures var o := outs[i];
      && AcceptedRows(outs[..i + 1]) == AcceptedRows(outs[..i]) + (if o.Accepted? then [o.row] else [])
      && SkippedNamesOf(outs[..i + 1]) == SkippedNamesOf(outs[..i]) + (if o.Skipped? then [o.name] else [])
  {
    assert outs[..i + 1] == outs[..i] + [outs[i]];
    FoldsSnoc(outs[..i], outs[i]);
  }

  /** One more entry adds its row, if it is accepted, and its name, if it is skipped. */
  lemma RecordsSnoc(entries: seq<RawEntry>, e: RawEntry, m: map<string, string>)
    ensures var o := ClassifyEntry(e, m);
      && Records(entries + [e], m) == Records(entries, m) + (if o.Accepted? then [o.row] else [])
      && SkippedNames(entries + [e], m) == SkippedNames(entries, m) + (if o.Skipped? then [o.name] else [])
  {
    MapSeqSnoc(entries, e, x => ClassifyEntry(x, m));
    FoldsSnoc(Outcomes(entries, m), ClassifyEntry(e, m));
  }

  /** Each outcome is a row, a skipped name or a drop, and exactly one of them. */
  lemma {:induction false} OutcomePartition(outs: seq<EntryOutcome>)
    ensures |AcceptedRows(outs)| + |SkippedNamesOf(outs)| + |Filter(outs, IsDropped)| == |outs|
  {
    if outs != [] {
      var init, last := outs[..|outs| - 1], outs[|outs| - 1];
      assert outs == init + [last];
      OutcomePartition(init);
      FilterConcat(init, [last], IsDropped);
    }
  }

  /** Every row comes from an accepted outcome. */
  lemma {:induction false} AcceptedRowOrigin(outs: seq<EntryOutcome>, row: ChatLogRow)
    requires row in AcceptedRows(outs)
    ensures Accepted(row) in outs
  {
    var init := outs[..|outs| - 1];
    if row in AcceptedRows(init) {
      AcceptedRowOrigin(init, row);
      var i :| 0 <= i < |init| && init[i] == Accepted(row);
      assert outs[i] == init[i];
    }
  }

  /** Every skipped name comes from a skipped outcome. */
  lemma {:induction false} SkippedNameOrigin(outs: seq<EntryOutcome>, name: string)
    requires name in SkippedNamesOf(outs)
    ensures Skipped(name) in outs
  {
    var init := outs[..|outs| - 1];
    if name in SkippedNamesOf(init) {
      SkippedNameOrigin(init, name);
      var i :| 0 <= i < |init| && init[i] == Skipped(name);
      assert outs[i] == init[i];
    }
  }

  /**
   * Every entry is dropped, skipped or accepted, and exactly one of them: the three
   * counts add up to the batch size. In particular `inserted + skipped <= |entries|`.
   */
  lemma EntriesPartition(entries: seq<RawEntry>, m: map<string, string>)
    ensures |Records(entries, m)| + |SkippedNames(entries, m)| + |DroppedOutcomes(entries, m)| == |entries|
  {
    OutcomePartition(Outcomes(entries, m));
  }

  /** Every record comes from an accepted entry of the batch. */
  lemma RecordOrigin(entries: seq<RawEntry>, m: map<string, string>, row: ChatLogRow)
    requires row in Records(entries, m)
    ensures exists i :: 0 <= i < |entries| && ClassifyEntry(entries[i], m) == Accepted(row)
  {
    var outs := Outcomes(entries, m);
    AcceptedRowOrigin(outs, row);
    var i :| 0 <= i < |outs| && outs[i] == Accepted(row);
    OutcomeAt(entries, m, i);
  }

  /** Every skipped name is `"(empty)"` or the untrimmed name of a skipped entry. */
  lemma SkippedOrigin(entries: seq<RawEntry>, m: map<string, string>, name: string)
    requires name in SkippedNames(entries, m)
    ensures exists i :: (0 <= i < |entries| && ClassifyEntry(entries[i], m) == Skipped(name)
                         && ResidentId(entries[i], m).None?
                         && (name == "(empty)" || Some(name) == entries[i].resident_name))
  {
    var outs := Outcomes(entries, m);
    SkippedNameOrigin(outs, name);
    var i :| 0 <= i < |outs| && outs[i] == Skipped(name);
    OutcomeAt(entries, m, i);
    ClassifySkipped(entries[i], m);
  }

  /** An entry the loop drops contributes to neither array. */
  lemma DroppedAddsNothing(entries: seq<RawEntry>, e: RawEntry, m: map<string, string>)
    requires ClassifyEntry(e, m).Dropped?
    ensures Records(entries + [e], m) == Records(entries, m)
    ensures SkippedNames(entries + [e], m) == SkippedNames(entries, m)
  {
    RecordsSnoc(entries, e, m);
  }

  /**
   * The loop: `for (const entry of entries)`, where each entry is classified as above and
   * then either ignored (`continue`), pushed onto `skipped`, or pushed onto `records`.
   */
  method BuildRecords(entries: seq<RawEntry>, m: map<string, string>)
    returns (records: seq<ChatLogRow>, skipped: seq<string>)
    ensures records == Records(entries, m) && skipped == SkippedNames(entries, m)
    ensures |records| + |skipped| <= |entries|
  {
    records, skipped := [], [];
    ghost var outs := Outcomes(entries, m);
    var i := 0;
    while i < |entries|
      invariant 0 <= i <= |entries| == |outs|
      invariant records == AcceptedRows(outs[..i]) && skipped == SkippedNamesOf(outs[..i])
    {
      OutcomeAt(entries, m, i);
      FoldsStep(outs, i);
      var outcome := ClassifyEntry(entries[i], m);
      if outcome.Skipped? {
        skipped := skipped + [outcome.name];
      } else if outcome.Accepted? {
        records := records + [outcome.row];
      }
      i := i + 1;
    }
    assert outs[..|entries|] == outs;
    EntriesPartition(entries, m);
  }

  /**
   * `POST /api/chatwork-sync`. `secret` is the configured webhook secret, `header` the
   * `x-webhook-secret` request header, `body` the parsed request body; `now` and `roster`
   * feed the name map, and `upsert` is what the `chat_logs` upsert reports. `upserted` is
   * the batch handed to the upsert, `None` when it is not called.
   */
  method Post(cache: NameMapCache, secret: Option<string>, header: Option<string>, body: Body,
              now: int, roster: RosterRead, upsert: UpsertOutcome)
    returns (resp: Response, upserted: Option<seq<ChatLogRow>>)
    modifies cache
    ensures !Authorized(secret, header) ==> resp == Unauthorized && upserted == None && unchanged(cache)
    ensures Authorized(secret, header) && body.MalformedJson? ==>
      resp == InvalidJson && upserted == None && unchanged(cache)
    ensures Authorized(secret, header) && Entries(body) == Some([]) ==>
      resp == NoEntries && upserted == None && unchanged(cache)
    ensures Authorized(secret, header) && Entries(body).Some? && Entries(body).value != [] ==>
      var entries := Entries(body).value;
      match Lookup(old(cache.cachedMap), old(cache.cacheTimestamp), now, roster)
      case Failure(msg) =>
        resp == NameMapFailed("名寄せマップの読み込みに失敗: " + msg) && upserted == None
      case Success(m) =>
        var records := Records(entries, m);
        var skipped := SkippedNames(entries, m);
        && upserted == (if records == [] then None else Some(records))
        && resp == (if records != [] && upsert.UpsertError?
                    then UpsertFailed("Upsert failed: " + upsert.message)
                    else SyncComplete(|records|, |skipped|, skipped))
    ensures Authorized(secret, header) && Entries(body).Some? && Entries(body).value != [] ==>
      if !old(cache.IsFresh(now)) && !ReadFailed(roster)
      then cache.cachedMap == Some(BuildNameMap(roster.data.value)) && cache.cacheTimestamp == now
      else unchanged(cache)
  {
    if !(secret.Some? && secret.value != "" && header == secret) {
      return Unauthorized, None;
    }
    if body.MalformedJson? {
      return InvalidJson, None;
    }
    var entries := if body.JsonArray? then body.items else [body.item];
    if |entries| == 0 {
      return NoEntries, None;
    }
    var nameMap := cache.GetNameMap(now, roster);
    if nameMap.Failure? {
      return NameMapFailed("名寄せマップの読み込みに失敗: " + nameMap.error), None;
    }
    var records, skipped := BuildRecords(entries, nameMap.value);
    upserted := None;
    if |records| > 0 {
      upserted := Some(records);
      if upsert.UpsertError? {
        return UpsertFailed("Upsert failed: " + upsert.message), upserted;
      }
    }
    resp := SyncComplete(|records|, |skipped|, skipped);
  }
}
