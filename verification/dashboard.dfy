/**
 * The staff dashboard (src/components/Dashboard.tsx): today's vital alerts and the
 * facility-wide timeline of the latest records and chat logs.
 *
 * The four queries (today's records and chat logs, the latest twenty of each) are inputs;
 * the resident join that decorates each row is not part of this model.
 */
module Dashboard {
  import opened Wrappers
  import opened JsArray
  import opened Types
  import opened UserDetail

  /** The body temperature from which a record raises an alert (degrees Celsius). */
  const FeverThreshold: real := 37.0

  /** The systolic pressure from which a record raises an alert (mmHg). */
  const HypertensionThreshold: real := 140.0

  /** The number of entries the global timeline shows. */
  const GlobalTimelineSize: nat := 20

  predicate HasFever(rec: DailyRecord) {
    rec.body_temp.Some? && rec.body_temp.value >= FeverThreshold
  }

  predicate HasHighBloodPressure(rec: DailyRecord) {
    rec.bp_high.Some? && rec.bp_high.value >= HypertensionThreshold
  }

  /** The `alertRecords` predicate: a fever or a high systolic pressure. */
  predicate IsAlert(rec: DailyRecord) {
    HasFever(rec) || HasHighBloodPressure(rec)
  }

  /** `todayRecords.filter(...)` with the alert predicate. */
  function AlertRecords(today: seq<DailyRecord>): (r: seq<DailyRecord>)
    ensures |r| <= |today|
  {
    Filter(today, IsAlert)
  }

  /** The alerts are an order-preserving sub-list of today's records: exactly those that alert. */
  lemma AlertRecordsSpec(today: seq<DailyRecord>, rec: DailyRecord)
    ensures IsSubsequence(AlertRecords(today), today)
    ensures rec in AlertRecords(today) <==> rec in today && IsAlert(rec)
  {
    FilterIsSubsequence(today, IsAlert);
    FilterMembership(today, IsAlert, rec);
  }

  /** One badge of an alert row, carrying the value it displays. */
  datatype AlertFlag = BodyTempFlag(temp: real) | BpHighFlag(systolic: real)

  /** The `flags` list of an alert row: the temperature badge first, then the pressure badge. */
  function AlertFlags(rec: DailyRecord): (flags: seq<AlertFlag>)
    ensures |flags| == (if HasFever(rec) then 1 else 0) + (if HasHighBloodPressure(rec) then 1 else 0)
    ensures flags != [] <==> IsAlert(rec)
    ensures |flags| == 2 ==> flags[0].BodyTempFlag? && flags[1].BpHighFlag?
    ensures forall v :: BodyTempFlag(v) in flags <==> HasFever(rec) && rec.body_temp == Some(v)
    ensures forall v :: BpHighFlag(v) in flags <==> HasHighBloodPressure(rec) && rec.bp_high == Some(v)
  {
    (if HasFever(rec) then [BodyTempFlag(rec.body_temp.value)] else [])
    + (if HasHighBloodPressure(rec) then [BpHighFlag(rec.bp_high.value)] else [])
  }

  /** Every record on the alert panel shows one or two badges. */
  lemma AlertRowsHaveFlags(today: seq<DailyRecord>, rec: DailyRecord)
    requires rec in AlertRecords(today)
    ensures 1 <= |AlertFlags(rec)| <= 2
  {
    FilterMembership(today, IsAlert, rec);
  }

  /** `[...records, ...chatLogs].sort(newest first).slice(0, 20)` */
  function GlobalTimeline(latestRecords: seq<DailyRecord>, latestChats: seq<ChatLog>): (g: seq<TimelineItem>)
    ensures var total := |latestRecords| + |latestChats|;
      |g| == if total <= GlobalTimelineSize then total else GlobalTimelineSize
  {
    var merged := BuildTimeline(latestRecords, latestChats);
    if |merged| <= GlobalTimelineSize then merged else merged[..GlobalTimelineSize]
  }

  /**
   * The global timeline has at most twenty entries; it is the newest-first merge cut after
   * twenty, so nothing is dropped when the inputs hold twenty or fewer, it is newest first,
   * and no dropped entry is newer than a kept one.
   */
  lemma GlobalTimelineSpec(latestRecords: seq<DailyRecord>, latestChats: seq<ChatLog>)
    ensures var g, merged := GlobalTimeline(latestRecords, latestChats), BuildTimeline(latestRecords, latestChats);
      && |g| <= GlobalTimelineSize
      && (|latestRecords| + |latestChats| <= GlobalTimelineSize ==> g == merged)
      && (|latestRecords| + |latestChats| > GlobalTimelineSize ==> |g| == GlobalTimelineSize)
      && g == merged[..|g|]
      && SortedDesc(g)
      && (forall i, j :: 0 <= i < |g| <= j < |merged| ==> g[i].time >= merged[j].time)
  {
    TimelineContents(latestRecords, latestChats);
  }

  /** Each entry of the global timeline is one of the latest records or chat logs, tagged with its own time. */
  lemma GlobalTimelineOrigin(latestRecords: seq<DailyRecord>, latestChats: seq<ChatLog>, x: TimelineItem)
    requires x in GlobalTimeline(latestRecords, latestChats)
    ensures x.DailyRecordItem? ==> x.record in latestRecords && x.time == x.record.record_time
    ensures x.ChatLogItem? ==> x.log in latestChats && x.time == x.log.send_time
  {
    var merged := BuildTimeline(latestRecords, latestChats);
    if |merged| > GlobalTimelineSize {
      var i :| 0 <= i < GlobalTimelineSize && merged[..GlobalTimelineSize][i] == x;
      assert merged[i] == x;
    }
    TimelineItemOrigin(latestRecords, latestChats, x);
  }
}
