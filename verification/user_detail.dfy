/**
 * The resident detail page (src/components/UserDetail.tsx): the merged, newest-first
 * timeline of a resident's vital records and chat logs, and the page's error flag.
 *
 * `items.sort` is `Array.prototype.sort`, which is stable; it is modelled by a stable
 * insertion sort on the integer times.
 */
module UserDetail {
  import opened Wrappers
  import opened JsArray
  import opened Types

  /** `dailyRecords.map(r => ({ type: "daily_record", time: r.record_time, data: r }))` */
  function TagDaily(records: seq<DailyRecord>): (r: seq<TimelineItem>)
    ensures |r| == |records|
    ensures forall i :: 0 <= i < |r| ==> r[i] == DailyRecordItem(records[i].record_time, records[i])
  {
    if records == [] then []
    else [DailyRecordItem(records[0].record_time, records[0])] + TagDaily(records[1..])
  }

  /** `chatLogs.map(c => ({ type: "chat_log", time: c.send_time, data: c }))` */
  function TagChat(logs: seq<ChatLog>): (r: seq<TimelineItem>)
    ensures |r| == |logs|
    ensures forall i :: 0 <= i < |r| ==> r[i] == ChatLogItem(logs[i].send_time, logs[i])
  {
    if logs == [] then []
    else [ChatLogItem(logs[0].send_time, logs[0])] + TagChat(logs[1..])
  }

  /** Newest first: times never increase along the sequence. */
  predicate SortedDesc(s: seq<TimelineItem>) {
    forall i, j :: 0 <= i < j < |s| ==> s[i].time >= s[j].time
  }

  /** The items of `s` with time `t`, in their order in `s`. */
  function AtTime(s: seq<TimelineItem>, t: Time): seq<TimelineItem> {
    Filter(s, (x: TimelineItem) => x.time == t)
  }

  /**
   * Puts `x` in front of the first item that is not newer than it, so `x` goes before
   * every item with the same time.
   */
  function Insert(x: TimelineItem, s: seq<TimelineItem>): (r: seq<TimelineItem>)
    ensures |r| == |s| + 1
    ensures forall y :: y in r <==> y == x || y in s
  {
    if s == [] || s[0].time <= x.time then [x] + s
    else [s[0]] + Insert(x, s[1..])
  }

  /** Inserting adds exactly one occurrence of `x`. */
  lemma {:induction false} InsertPermutes(x: TimelineItem, s: seq<TimelineItem>)
    ensures multiset(Insert(x, s)) == multiset(s) + multiset{x}
  {
    if !(s == [] || s[0].time <= x.time) {
      InsertPermutes(x, s[1..]);
      assert s == [s[0]] + s[1..];
    }
  }

  /** Inserting into a newest-first sequence keeps it newest first. */
  lemma {:induction false} InsertSorted(x: TimelineItem, s: seq<TimelineItem>)
    requires SortedDesc(s)
    ensures SortedDesc(Insert(x, s))
  {
    if !(s == [] || s[0].time <= x.time) {
      InsertSorted(x, s[1..]);
      var r := Insert(x, s);
      forall i, j | 0 <= i < j < |r| ensures r[i].time >= r[j].time {
        if i == 0 {
          assert r[j] in Insert(x, s[1..]);
        }
      }
    }
  }

  /** The comparator sort `(a, b) => b.time - a.time`: newest first, stable. */
  function SortByTimeDesc(s: seq<TimelineItem>): (r: seq<TimelineItem>)
    ensures multiset(r) == multiset(s)
    ensures SortedDesc(r)
  {
    if s == [] then []
    else
      var rest := SortByTimeDesc(s[1..]);
      InsertPermutes(s[0], rest);
      InsertSorted(s[0], rest);
      assert s == [s[0]] + s[1..];
      Insert(s[0], rest)
  }

  /** Inserting `x` adds it at the front of the items with its time and leaves the others. */
  lemma {:induction false} InsertAtTime(x: TimelineItem, s: seq<TimelineItem>, t: Time)
    ensures AtTime(Insert(x, s), t) == (if x.time == t then [x] else []) + AtTime(s, t)
  {
    var p := (y: TimelineItem) => y.time == t;
    if s == [] || s[0].time <= x.time {
      FilterConcat([x], s, p);
    } else {
      InsertAtTime(x, s[1..], t);
      FilterConcat([s[0]], Insert(x, s[1..]), p);
      FilterConcat([s[0]], s[1..], p);
      assert s == [s[0]] + s[1..];
    }
  }

  /**
   * The sort is stable: the items with any one time come out in their input order.
   */
  lemma {:induction false} SortStable(s: seq<TimelineItem>, t: Time)
    ensures AtTime(SortByTimeDesc(s), t) == AtTime(s, t)
  {
    if s != [] {
      SortStable(s[1..], t);
      InsertAtTime(s[0], SortByTimeDesc(s[1..]), t);
      assert s == [s[0]] + s[1..];
      FilterConcat([s[0]], s[1..], (y: TimelineItem) => y.time == t);
    }
  }

  /** `buildTimeline(dailyRecords, chatLogs)` */
  function BuildTimeline(daily: seq<DailyRecord>, chats: seq<ChatLog>): (r: seq<TimelineItem>)
    ensures |r| == |daily| + |chats|
  {
    var tagged := TagDaily(daily) + TagChat(chats);
    assert |multiset(SortByTimeDesc(tagged))| == |multiset(tagged)|;
    SortByTimeDesc(tagged)
  }

  /**
   * The timeline holds every daily record and every chat log exactly once, tagged with its
   * own kind and time, and nothing else; it is newest first.
   */
  lemma TimelineContents(daily: seq<DailyRecord>, chats: seq<ChatLog>)
    ensures multiset(BuildTimeline(daily, chats)) == multiset(TagDaily(daily)) + multiset(TagChat(chats))
    ensures |BuildTimeline(daily, chats)| == |daily| + |chats|
    ensures SortedDesc(BuildTimeline(daily, chats))
  {
    var items := TagDaily(daily) + TagChat(chats);
    assert |multiset(BuildTimeline(daily, chats))| == |multiset(items)|;
  }

  /** Each item is a daily record tagged with its `record_time` or a chat log tagged with its `send_time`. */
  lemma TimelineItemOrigin(daily: seq<DailyRecord>, chats: seq<ChatLog>, x: TimelineItem)
    requires x in BuildTimeline(daily, chats)
    ensures x.DailyRecordItem? ==> x.record in daily && x.time == x.record.record_time
    ensures x.ChatLogItem? ==> x.log in chats && x.time == x.log.send_time
  {
    var tagged, chatItems := TagDaily(daily), TagChat(chats);
    assert x in multiset(BuildTimeline(daily, chats));
    assert x in multiset(tagged + chatItems);
    if x in tagged {
      var i :| 0 <= i < |tagged| && tagged[i] == x;
      assert x == DailyRecordItem(daily[i].record_time, daily[i]);
    } else {
      assert x in chatItems;
      var i :| 0 <= i < |chatItems| && chatItems[i] == x;
      assert x == ChatLogItem(chats[i].send_time, chats[i]);
    }
  }

  /**
   * Items with the same time keep the input order: the daily records first, in their order,
   * then the chat logs, in theirs.
   */
  lemma TimelineTies(daily: seq<DailyRecord>, chats: seq<ChatLog>, t: Time)
    ensures AtTime(BuildTimeline(daily, chats), t) == AtTime(TagDaily(daily), t) + AtTime(TagChat(chats), t)
  {
    SortStable(TagDaily(daily) + TagChat(chats), t);
    FilterConcat(TagDaily(daily), TagChat(chats), (y: TimelineItem) => y.time == t);
  }

  /** The error state of one of the five queries of `fetchUserData`. */
  datatype QueryError = NoError | QueryFailed(message: string)

  /** The five queries: the resident, medical histories, medications, daily records, chat logs. */
  datatype FetchErrors = FetchErrors(
    user: QueryError,
    histories: QueryError,
    medications: QueryError,
    dailyRecords: QueryError,
    chatLogs: QueryError)

  function ErrorList(f: FetchErrors): seq<QueryError> {
    [f.user, f.histories, f.medications, f.dailyRecords, f.chatLogs]
  }

  /** `hasError`: one of the five queries reported an error. */
  function HasError(f: FetchErrors): (r: bool)
    ensures !r <==> ErrorList(f) == [NoError, NoError, NoError, NoError, NoError]
  {
    f.user.QueryFailed? || f.histories.QueryFailed? || f.medications.QueryFailed?
    || f.dailyRecords.QueryFailed? || f.chatLogs.QueryFailed?
  }
}
