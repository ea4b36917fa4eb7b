# Care-record dashboard: message ingestion and timeline views, in Dafny

This project models the logic of a care-facility record dashboard. Staff browse residents,
read their vital-sign records and chat logs on a timeline, and receive chat messages pushed
by an external chat integration. The model covers:

- **Name normalisation** (`ChatworkUtils`, src/lib/chatwork-utils.ts). A resident name becomes
  a canonical key in these steps:
  - whitespace is deleted;
  - half-width katakana becomes full-width;
  - the archaic ヰ/ヱ become イ/エ;
  - eleven CJK compatibility ideographs are rewritten through a fixed table, whose targets
    are mostly not their canonical forms;
  - Unicode NFC is applied last.
- **Timestamps** (`ChatworkUtils`). The input is trimmed and every `/` becomes `-`. A date
  `YYYY-MM-DD`, optionally followed by a space or `T` and `HH:MM` or `HH:MM:SS`, becomes text
  in the RFC 3339 date-time shape with the fixed offset `+09:00`. Field values are not
  range-checked. Anything else gives no timestamp.
- **Category tags** (`ChatworkUtils`). Keyword rules, tried in order, tag a message as
  排泄 (excretion), 体調 (condition), 睡眠 (sleep) or その他 (other).
- **The name map** (`NameMap`, src/lib/name-map.ts). A map from canonical name to resident
  id is built from the `users` roster. It is cached in module state and reused for five
  minutes.
- **The ingestion webhook** (`ChatworkSync`, src/app/api/chatwork-sync/route.ts). It
  checks the shared secret and parses the batch. It then drops unusable entries, reports
  entries whose resident name does not resolve, upserts the rest as chat logs and reports
  the counts.
- **The timeline views**:
  - the resident page's merged, newest-first timeline and its error flag (`UserDetail`);
  - the category filter buttons (`TimelineSection`);
  - the dashboard's vital-sign alerts and its twenty-entry global timeline (`Dashboard`);
  - the resident list's search and default status filter (`UserList`).

Supporting modules:

- `Wrappers` holds `Option` and `Result`.
- `JsText` models the JavaScript string operations used: `trim` with the ECMAScript
  whitespace set, `includes`, and global `replace` with a character class.
- `JsArray` models `Array.prototype.filter` and `Array.prototype.map`.
- `Types` holds the records read from the store.

The I/O is passed in as parameters. For the webhook these are the configured secret, the
request header, the parsed body, the clock, the roster read and the upsert outcome. For the
views they are the query results. The webhook's response is a datatype. The name-map cache
is a class whose two fields are updated in place, as the module variables are in the
source.

Three facts about the code are easy to get wrong:

- **Sleep keywords.** The sleep rule knows only 入眠, 覚醒 and 鼾. So "よく眠れています"
  contains none of them and is tagged その他.
- **Half-width table size.** The half-width katakana table has 58 entries, covering exactly
  U+FF66–U+FF9F.
- **Variant table targets.** Only U+FA10 → U+585A agrees with the NFC decomposition. The
  other ten reachable keys map elsewhere. U+FA11 → U+5D0E is rewritten although NFC keeps
  U+FA11. U+FA12 → U+6075 (NFC: U+6674), U+FA15 → U+6D3B (U+51DE), U+FA19 神 → U+7965 祥
  (U+795E), U+FA1A → U+7E41 (U+7965), U+FA1B → U+8077 (U+798F), U+FA1C → U+82A6 (U+9756),
  U+FA1D → U+9038 (U+7CBE), U+FA1E → U+905E (U+7FBD) and U+FA67 → U+5C71 山 (U+9038).
  The table runs before NFC, so a 神 written as U+FA19 gets the key 祥. It no longer meets
  a roster name spelled with U+795E, which NFC alone would have unified with it.

## Model

| member | source | states |
|---|---|---|
| ChatworkUtils.NormalizeName | src/lib/chatwork-utils.ts:9-51 | The empty name and every all-whitespace name normalise to the empty key. |
| ChatworkUtils.CanonicalBeforeNfc | src/lib/chatwork-utils.ts:11-49 | The four replace passes before NFC: delete whitespace, widen half-width katakana, modernise ヰ/ヱ, unify the CJK variants. No contract of its own; its properties are the `CanonicalBeforeNfc…` lemmas below. |
| ChatworkUtils.CanonicalBeforeNfcBlank | src/lib/chatwork-utils.ts:10-12 | Before NFC, a name made only of whitespace is reduced to nothing. |
| ChatworkUtils.CanonicalBeforeNfcConcat | src/lib/chatwork-utils.ts:12-49 | The four replace passes distribute over concatenation: each part of a name is normalised on its own. |
| ChatworkUtils.CanonicalBeforeNfcSingle | src/lib/chatwork-utils.ts:12-49 | On one character, the four passes agree with the per-character reference definition `CanonicalChar`. |
| ChatworkUtils.CanonicalBeforeNfcPerChar | src/lib/chatwork-utils.ts:12-49 | The four passes in sequence replace every character by `CanonicalChar` of it, in order. |
| ChatworkUtils.HalfToFullCoversBlock | src/lib/chatwork-utils.ts:14-38 | The half-width table has an entry for exactly the code points U+FF66–U+FF9F. Every entry is a modern full-width katakana or spacing voiced mark. |
| ChatworkUtils.CjkVariantOutputs | src/lib/chatwork-utils.ts:43-48 | Every value of the variant table is a single character that no pass rewrites again. |
| ChatworkUtils.CanonicalCharIsPlain | src/lib/chatwork-utils.ts:12-49 | Whatever a character becomes is made only of characters that no pass touches. |
| ChatworkUtils.PlainCharUnchanged | src/lib/chatwork-utils.ts:12-49 | A character that no pass touches is kept as it is. |
| ChatworkUtils.CanonicalBeforeNfcIsPlain | src/lib/chatwork-utils.ts:12-49 | Every character of the name before NFC is one that no pass touches. |
| ChatworkUtils.NoWhitespaceOrHalfWidthBeforeNfc | src/lib/chatwork-utils.ts:12-38 | Before NFC the name holds no whitespace and no half-width katakana. |
| ChatworkUtils.PlainNameUnchanged | src/lib/chatwork-utils.ts:12-49 | A name with only untouched characters passes through the four passes unchanged. |
| ChatworkUtils.CanonicalBeforeNfcIdempotent | src/lib/chatwork-utils.ts:12-49 | The four passes are idempotent. |
| ChatworkUtils.ReplacedInContext | src/lib/chatwork-utils.ts:14-41 | A half-width katakana becomes its table entry, ヱ becomes エ and ヰ becomes イ, wherever it occurs in the name. |
| ChatworkUtils.CjkRewrittenIffKey | src/lib/chatwork-utils.ts:43-49 | A compatibility ideograph is rewritten exactly when it is a key of the variant table, and then to that key's value. |
| ChatworkUtils.VariantTargetsExample | src/lib/chatwork-utils.ts:43-49 | Before NFC, U+FA19 (神) becomes 祥 U+7965, U+FA12 becomes U+6075 and U+FA67 becomes 山 U+5C71: the table's own targets. |
| ChatworkUtils.TwoCharKeyUnreachable | src/lib/chatwork-utils.ts:43-49 | The variant key written `⾀4` is the two-character string U+2F80 "4", which the one-character lookup never reaches. U+FA67 is the only character rewritten to 山. The four passes before NFC leave the ideograph U+2F804 unchanged. |
| ChatworkUtils.HalfWidthExample | src/lib/chatwork-utils.ts:14-38 | ﾃｽﾄ becomes テスト. |
| ChatworkUtils.NormalizeIgnoresSpaces | src/lib/chatwork-utils.ts:9-12 | A name with a half-width space, one with an ideographic space and one with no space get the same key. |
| ChatworkUtils.JstFromText | src/lib/chatwork-utils.ts:59-70 | When the prepared text matches a pattern, the result has the shape `YYYY-MM-DDTHH:MM:SS+09:00`. |
| ChatworkUtils.ToJstTimestamp | src/lib/chatwork-utils.ts:56-71 | A missing value gives no timestamp. Every timestamp produced has the `YYYY-MM-DDTHH:MM:SS+09:00` shape. |
| ChatworkUtils.ToJstTimestampDefined | src/lib/chatwork-utils.ts:57-70 | A timestamp is produced exactly when the trimmed text, with `/` turned into `-`, is a date-time or a bare date. Blank text never gives one. |
| ChatworkUtils.ToJstTimestampFields | src/lib/chatwork-utils.ts:59-68 | The date, hours and minutes are copied verbatim. Given seconds are kept and missing seconds become 00. A bare date gets midnight. |
| ChatworkUtils.JstFromTextFields | src/lib/chatwork-utils.ts:59-68 | For prepared text of either shape, the date, hours and minutes are copied. Given seconds are kept, missing seconds become 00, and a bare date gets midnight. |
| ChatworkUtils.SlashesAreDashes | src/lib/chatwork-utils.ts:58 | Replacing `/` by `-` beforehand does not change the result. |
| ChatworkUtils.PreparedTextSlashes | src/lib/chatwork-utils.ts:57-58 | Replacing `/` by `-` first changes neither the blank test nor the prepared text. |
| ChatworkUtils.SpaceOrTSeparator | src/lib/chatwork-utils.ts:59 | A space and a `T` between the date and the clock give the same result. |
| ChatworkUtils.SlashPreparedExample | src/lib/chatwork-utils.ts:57-58 | `2024/01/05 09:30` is prepared as `2024-01-05 09:30`. |
| ChatworkUtils.MinutesExample | src/lib/chatwork-utils.ts:59-64 | `2024-01-05T09:30` becomes `2024-01-05T09:30:00+09:00`. |
| ChatworkUtils.SecondsKeptExample | src/lib/chatwork-utils.ts:59-64 | `2024-01-05 09:30:15` becomes `2024-01-05T09:30:15+09:00`. |
| ChatworkUtils.DateOnlyExample | src/lib/chatwork-utils.ts:66-68 | `2024-01-05` becomes `2024-01-05T00:00:00+09:00`. |
| ChatworkUtils.NoRangeCheckExample | src/lib/chatwork-utils.ts:59-64 | Field values are not range-checked: `2024-13-45 25:61` is accepted. |
| ChatworkUtils.RejectExamples | src/lib/chatwork-utils.ts:57-70 | A day-first date, an unpadded date and a missing value give no timestamp. |
| ChatworkUtils.InferCategoryTag | src/lib/chatwork-utils.ts:76-81 | The tag is one of 排泄, 体調, 睡眠 and その他. It is never 食事. |
| ChatworkUtils.ContainsSpO2IffSpelling | src/lib/chatwork-utils.ts:78 | The case-insensitive `SpO2` pattern matches exactly when one of its eight spellings occurs. |
| ChatworkUtils.CategoryByOccurrence | src/lib/chatwork-utils.ts:76-81 | 排泄 exactly when an excretion keyword occurs. 体調 exactly when none occurs and a condition keyword or `SpO2` spelling does. 睡眠 exactly when neither of those occurs and a sleep keyword does. その他 exactly when no keyword of any rule occurs. |
| ChatworkUtils.SpO2NeedsS | src/lib/chatwork-utils.ts:78 | The `SpO2` pattern only matches a message containing `S` or `s`. |
| ChatworkUtils.NoKeywordStart | src/lib/chatwork-utils.ts:77-79 | A keyword list none of whose first characters occurs in the message does not match it. |
| ChatworkUtils.NoKeywordCharacters | src/lib/chatwork-utils.ts:76-81 | A message containing no keyword's first character is tagged その他. |
| ChatworkUtils.ExcretionWinsExample | src/lib/chatwork-utils.ts:77-78 | "体温38.5度、排尿あり" is tagged 排泄: the excretion rule is tried first. |
| ChatworkUtils.SleepWithoutKeywordExample | src/lib/chatwork-utils.ts:79-80 | "よく眠れています" is tagged その他. |
| ChatworkUtils.SpO2Example | src/lib/chatwork-utils.ts:78 | "spO2 95%" is tagged 体調. |
| ChatworkUtils.SleepExample | src/lib/chatwork-utils.ts:79 | "22時入眠" is tagged 睡眠. |
| NameMap.ReadErrorMessageSpec | src/lib/name-map.ts:18-19 | The thrown message always starts with the fixed prefix. Two failed reads with errors give the same message exactly when their errors are equal. A read with no data and no error reads like an error whose message is "undefined". |
| NameMap.BuildNameMap | src/lib/name-map.ts:22-27 | The map the loop builds, one `set` per usable row in roster order. No contract of its own; its keys, values and last-wins rule are the three lemmas below. |
| NameMap.NameMapKeys | src/lib/name-map.ts:22-27 | A key is in the map exactly when some row with a non-empty id and name normalises to it. |
| NameMap.NameMapLastWins | src/lib/name-map.ts:22-27 | A key maps to the id of the last usable row with that canonical name. |
| NameMap.NameMapValues | src/lib/name-map.ts:22-27 | Every value is the non-empty id of some usable row. |
| NameMap.BlankNamesShareEmptyKey | src/lib/name-map.ts:22-27 | A roster whose names are all blank produces no key but the empty one. |
| NameMap.Lookup | src/lib/name-map.ts:8-31 | A fresh cache is returned as it is. Otherwise the call fails exactly when the roster read fails, with the prefixed read error. A successful reload returns the map built from the roster. |
| NameMap.BuildMapFromRows | src/lib/name-map.ts:22-27 | The loop builds `BuildNameMap(rows)`, the last-write-wins map whose keys and values the lemmas above describe. |
| NameMap.NameMapCache.constructor | src/lib/name-map.ts:4-5 | The initial state is no map and timestamp 0. |
| NameMap.NameMapCache.GetNameMap | src/lib/name-map.ts:8-31 | A fresh cache is returned and the state is unchanged. A failed read returns the error and leaves the state alone. A successful read rebuilds the map, stores it with the current time and returns it. |
| NameMap.StaleAtExactTtl | src/lib/name-map.ts:6-10 | The TTL test is strict: at exactly five minutes the cache is stale. |
| NameMap.ReloadThenReuse | src/lib/name-map.ts:8-31 | After a rebuild, a second call within five minutes returns the same map, whatever the roster then says. |
| ChatworkSync.Status | src/app/api/chatwork-sync/route.ts:20-114 | Status 401 exactly for "Unauthorized" and 400 exactly for invalid JSON. Status 200 exactly for the "no entries" and "sync complete" responses. Status 500 exactly for the name-map and upsert failures. |
| ChatworkSync.Entries | src/app/api/chatwork-sync/route.ts:29-37 | A malformed body gives no entries. A JSON array is the batch itself. Any other JSON value is wrapped into a one-entry batch. |
| ChatworkSync.StaffName | src/app/api/chatwork-sync/route.ts:87 | The staff name is the trimmed field when that is non-empty, and null when the field is missing or blank. |
| ChatworkSync.SkippedName | src/app/api/chatwork-sync/route.ts:75-80 | A skipped entry is reported under its raw, untrimmed name, or as "(empty)" when there is none. |
| ChatworkSync.ResidentId | src/app/api/chatwork-sync/route.ts:75-79 | A name resolves exactly when its normalised key is non-empty, is in the map and maps to a non-empty id; the id is that map value. A blank or missing name never resolves, even when a blank roster name put "" into the map. |
| ChatworkSync.Authorized | src/app/api/chatwork-sync/route.ts:22-23 | The request passes when the secret is configured and non-empty and the header equals it. No contract of its own; `Post` states the 401 answer. |
| ChatworkSync.ClassifyEntry | src/app/api/chatwork-sync/route.ts:67-92 | One loop iteration: drop, skip under a name, or accept as a row. No contract of its own; it is specified by `ClassifyDropped`, `ClassifySkipped` and `ClassifyAccepted`. |
| ChatworkSync.ClassifyDropped | src/app/api/chatwork-sync/route.ts:67-73 | An entry is dropped exactly when its trimmed id or message is empty or its time does not convert. |
| ChatworkSync.ClassifySkipped | src/app/api/chatwork-sync/route.ts:75-81 | A skipped entry is one whose name does not resolve. It is reported under its raw name, or as "(empty)". |
| ChatworkSync.ClassifyAccepted | src/app/api/chatwork-sync/route.ts:84-91 | An accepted entry becomes a row with the trimmed id and message, the converted `+09:00` time, the resolved resident, the staff name and the tag inferred from the message. |
| ChatworkSync.OutcomeAt | src/app/api/chatwork-sync/route.ts:67 | The loop visits the entries in batch order: the i-th outcome is the classification of the i-th entry. |
| ChatworkSync.FoldsSnoc | src/app/api/chatwork-sync/route.ts:80-91 | One more outcome pushes its row if accepted, its name if skipped, and nothing if dropped. |
| ChatworkSync.FoldsStep | src/app/api/chatwork-sync/route.ts:67-92 | After the first i entries, visiting entry i pushes its row if accepted and its name if skipped. |
| ChatworkSync.RecordsSnoc | src/app/api/chatwork-sync/route.ts:67-92 | One more entry pushes its row if accepted and its name if skipped, after everything before it. |
| ChatworkSync.OutcomePartition | src/app/api/chatwork-sync/route.ts:67-92 | Each outcome is counted in exactly one of rows, skipped names or drops. |
| ChatworkSync.AcceptedRowOrigin | src/app/api/chatwork-sync/route.ts:84-91 | Every pushed row comes from an accepted outcome. |
| ChatworkSync.SkippedNameOrigin | src/app/api/chatwork-sync/route.ts:75-81 | Every pushed name comes from a skipped outcome. |
| ChatworkSync.EntriesPartition | src/app/api/chatwork-sync/route.ts:67-92 | Every entry is exactly one of inserted, skipped or dropped: the three counts add up to the batch size. |
| ChatworkSync.RecordOrigin | src/app/api/chatwork-sync/route.ts:84-91 | Every upserted row comes from an accepted entry of the batch. |
| ChatworkSync.SkippedOrigin | src/app/api/chatwork-sync/route.ts:75-81 | Every skipped name is "(empty)" or the raw name of an entry whose name did not resolve. |
| ChatworkSync.DroppedAddsNothing | src/app/api/chatwork-sync/route.ts:68-73 | A dropped entry adds neither a row nor a skipped name. |
| ChatworkSync.BuildRecords | src/app/api/chatwork-sync/route.ts:65-92 | The loop computes the rows and skipped names that `Records` and `SkippedNames` define. Together they never exceed the batch size. |
| ChatworkSync.Post | src/app/api/chatwork-sync/route.ts:20-114 | The endpoint answers as follows, in order:<br>- a missing or empty secret, or a wrong header: 401;<br>- a malformed body: 400;<br>- an empty batch: "no entries", without touching the name map;<br>- a failed name map: 500 with the prefixed message;<br>- otherwise the batch's rows are upserted, if there are any. An upsert error gives 500; success gives the counts and the skipped names.<br>It also states the name-map cache state after the call. |
| UserDetail.TagDaily | src/components/UserDetail.tsx:71-73 | Each daily record becomes a timeline item tagged with its own record time, in order. |
| UserDetail.TagChat | src/components/UserDetail.tsx:74-76 | Each chat log becomes a timeline item tagged with its own send time, in order. |
| UserDetail.Insert | src/components/UserDetail.tsx:78-80 | Inserting adds the item and nothing else. |
| UserDetail.InsertPermutes | src/components/UserDetail.tsx:78-80 | Inserting adds exactly one occurrence of the item. |
| UserDetail.InsertSorted | src/components/UserDetail.tsx:78-80 | Inserting into a newest-first list keeps it newest first. |
| UserDetail.SortByTimeDesc | src/components/UserDetail.tsx:78-80 | The sort returns a permutation of its input, newest first. |
| UserDetail.InsertAtTime | src/components/UserDetail.tsx:78-80 | An inserted item goes in front of the items with the same time and leaves their order alone. |
| UserDetail.SortStable | src/components/UserDetail.tsx:78-80 | The sort is stable: items with the same time keep their input order. |
| UserDetail.BuildTimeline | src/components/UserDetail.tsx:66-82 | The timeline holds as many items as there are records and chat logs together. |
| UserDetail.TimelineContents | src/components/UserDetail.tsx:66-82 | The timeline holds every record and chat log exactly once, and nothing else, newest first. |
| UserDetail.TimelineItemOrigin | src/components/UserDetail.tsx:70-77 | A daily-record item carries one of the records and its record time. A chat item carries one of the logs and its send time. |
| UserDetail.TimelineTies | src/components/UserDetail.tsx:70-80 | Among items with the same time, the daily records come first, in their order, then the chat logs, in theirs. |
| UserDetail.HasError | src/components/UserDetail.tsx:57-62 | The error flag is off exactly when none of the five queries reported an error. |
| TimelineSection.LabelInjective | src/components/TimelineSection.tsx:10-12 | The six filters have six different labels. |
| TimelineSection.MatchesFilter | src/components/TimelineSection.tsx:14-52 | The filter test per item. No contract of its own; its cases are the lemmas below. |
| TimelineSection.FilterTimeline | src/components/TimelineSection.tsx:65 | The filtered list is never longer than the timeline. |
| TimelineSection.FilterTimelineSpec | src/components/TimelineSection.tsx:65 | The filtered timeline is an order-preserving sub-list holding exactly the matching items. "すべて" keeps everything. |
| TimelineSection.ChatMatchesAtMostOne | src/components/TimelineSection.tsx:17-21 | A chat log matches at most one specific filter. |
| TimelineSection.ChatMatchesOwnTag | src/components/TimelineSection.tsx:17-21 | A chat log matches the filter whose label is its tag. |
| TimelineSection.DailyOtherIffNoCategory | src/components/TimelineSection.tsx:24-48 | A daily record matches "その他" exactly when it matches none of "体調", "排泄" and "食事". It never matches "睡眠". |
| TimelineSection.BpLowIgnored | src/components/TimelineSection.tsx:24-48 | The diastolic pressure plays no part in any filter. |
| TimelineSection.IngestedChatNeverMeal | src/components/TimelineSection.tsx:17-21 | A chat log tagged by the ingestion keyword rules never shows under "食事". |
| Dashboard.AlertRecords | src/components/Dashboard.tsx:131-135 | There are never more alerts than records of the day. |
| Dashboard.AlertRecordsSpec | src/components/Dashboard.tsx:130-135 | The alerts are the order-preserving sub-list of today's records with a temperature of 37.0 or more or a systolic pressure of 140 or more. |
| Dashboard.AlertFlags | src/components/Dashboard.tsx:205-209 | A row has one badge per alert condition, and a badge exactly when it alerts. The temperature badge is present exactly for a fever, the pressure badge exactly for a high systolic pressure, each carrying its value. With both, the temperature badge comes first. |
| Dashboard.AlertRowsHaveFlags | src/components/Dashboard.tsx:204-209 | Every row of the alert panel shows one or two badges. |
| Dashboard.GlobalTimeline | src/components/Dashboard.tsx:138-151 | The global timeline has as many entries as the latest records and logs together, but at most twenty. |
| Dashboard.GlobalTimelineSpec | src/components/Dashboard.tsx:137-151 | The global timeline has at most 20 entries and is a prefix of the merged, newest-first timeline. Nothing is dropped when there are 20 entries or fewer. It is newest first, and no dropped entry is newer than a kept one. |
| Dashboard.GlobalTimelineOrigin | src/components/Dashboard.tsx:138-149 | Each entry is one of the latest records or chat logs, tagged with its own time. |
| UserList.Searched | src/components/UserList.tsx:22-25 | The search result is never longer than the user list. |
| UserList.Filtered | src/components/UserList.tsx:28-34 | The filtered list is never longer than the search result. |
| UserList.Visible | src/components/UserList.tsx:22-34 | The shown list is never longer than the user list. |
| UserList.SearchedSpec | src/components/UserList.tsx:22-25 | The search keeps, in order, exactly the users whose name or room contains the query, with a null room read as "". The empty query keeps everyone. |
| UserList.FilteredSpec | src/components/UserList.tsx:28-34 | With "すべて表示" the list is the search result. Otherwise it keeps, in order, exactly the users whose status is neither 入院 nor 退所 and whose name does not contain 空床. |
| UserList.NullStatusNotHidden | src/components/UserList.tsx:32 | A null status is never hidden by the status rule. |
| UserList.StatusComparedExactly | src/components/UserList.tsx:14-32 | Statuses are compared whole: "入院予定" does not hide a user. |
| UserList.VisibleSpec | src/components/UserList.tsx:22-34 | The two filters compose into one filter over the users. Turning "すべて表示" off only removes users. |

## Left out

- ChatworkUtils.NormalizeName: Unicode NFC is an uninterpreted function. Its composition tables are not modelled. The only fact used is that it maps "" to "". So the properties about the four passes are stated before NFC, and the NFC result is only known to be "" for blank names.
- JavaScript strings are UTF-16 code units. The model's strings are Unicode scalar values. All tables and patterns in the code are in the Basic Multilingual Plane, so the two agree except on lone surrogates, which the model cannot represent.
- Non-string JSON fields are not modelled. An entry's `datetime` that is a number, boolean or object is `String()`-converted by `toJSTTimestamp`. Such a value in the id, message or staff name makes `trim` throw. A truthy one in the resident name makes `replace` inside `normalizeName` throw. A `0` or `false` resident name is treated as missing, so the entry is skipped and reported as "(empty)". A `null` element of the batch also makes the handler throw. Every field is modelled as a string or absent.
- The database is not modelled:
  - the Supabase queries and the upsert are inputs: their rows and errors, or the upsert's outcome;
  - the upsert's overwrite-by-id semantics and duplicate message ids within one batch are not modelled;
  - the `users` join that decorates the dashboard rows is left out.
- Timestamps on the reading side are not modelled. The views compare `new Date(time).getTime()`. The model keeps that number as an integer time, so unparsable dates (`NaN` in the comparator) are not modelled.
- Dashboard.AlertFlags: the badge text is not modelled. The badge carries the number it displays; how JavaScript formats that number is left out.
- Vital signs are JavaScript numbers, modelled as exact reals. Floating-point rounding is not modelled.
- Concurrency is not modelled. That covers two overlapping requests rebuilding the name map, and the asynchronous order of the queries.
- The following are rendering, UI state or cookie handling: React rendering, `useState` hooks, navigation, the record form and modal, the staff cookie, login and the middleware. They contain none of the modelled logic.
- The environment variable holding the webhook secret becomes the `secret` parameter. The clock `Date.now()` becomes the `now` parameter.
