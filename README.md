# IoT camera telemetry: a verified model

The system has four parts, and this project models the logic at the core of each.

- **Device publisher** (`send_data.py`). A camera device publishes telemetry and detection events over MQTT. When the broker is unreachable it keeps messages in a local JSON-lines spool. It emits a detection event only when the detections change or a cooldown has passed.
- **Worker** (`worker/worker.php`). It subscribes to `home/iot/+/telemetry`, `home/iot/+/events` and `home/iot/+/status/online`. It records every message in MySQL: one device row per device, plus append-only telemetry and event history.
- **Read API.** There are two copies: `admin/controllers/dashboard/api.php` and the `?api=` branch of `dashboard.php`. Each answers `devices` and `history` requests from the database.
- **Two browser dashboards.** These are `assets/js/dashboard.js` and the inline script of `dashboard.php`. Each merges the polled device list with live MQTT messages.

The Dafny modules follow that structure:

| module | file | models |
|---|---|---|
| `Text` | text.dfy | split/join, trim, decimal printing, PHP's string-to-int cast, lexicographic order |
| `JsonValue` | json.dfy | JSON values, PHP `isset`/casts, JavaScript truthiness and property access |
| `Topic` | topic.dfy | the worker's `parse_topic` and the dashboards' topic routing |
| `Ingest` | ingest.dfy | the worker: field extraction, the device upsert, the inserts, the transactions (class `Store`) |
| `ReadApi` | read_api.dfy | both read endpoints: dispatch, limits, the DESC/LIMIT queries, the shaping of answers |
| `Reconciler` | reconciler.dfy | `dashboard.js` state (class `Dashboard`): poll merge, live events, the events list merge |
| `InlineDashboard` | inline_dashboard.dfy | the inline script of `dashboard.php` (class `InlinePage`) |
| `Spool` | spool.dfy | the publisher's spool file (class `SpoolFile`) |
| `Publisher` | publisher.dfy | signature, the event rule, event payloads, `publish_or_spool`, `handle_frame` (class `Publisher`) |

Several inputs are passed in as parameters rather than modelled:

- timestamps are whole seconds;
- the clock, ISO-8601 parsing, `json.dumps`/`json.loads`, `JSON.parse`, sha1, and whether the broker accepts a publish are all parameters;
- what a statement of the database rejects is a parameter `StorageFault`.

Each state-changing operation is a method of a class. Its contract ties the new state to a specification function, and the properties are proved about those functions.

Where the specification and the code differ, the model follows the code:

- Only telemetry history is reversed into chronological order. Event history is answered newest first (`ReadApi.EventsWindow`, `ReadApi.AdminHistory`).
- Only the admin endpoint clamps the limits to [30, 2000] and [10, 500]. The `?api=` branch of `dashboard.php` applies a lower bound of 10 and no upper cap (`ReadApi.LimitsDiffer`).

Other behaviours of the code that the model keeps:

- The inline script of `dashboard.php` assigns polled rows with `Object.assign`, so a null column clears the stored value. `dashboard.js` keeps the stored value instead (`InlineDashboard.NullPollContrast`).
- The worker runs with `strict_types`, so a `ts` that is present but not a string makes `iso_to_mysql` throw before anything is written (`Ingest.MessageTime`).

## Model

| member | source | states |
|---|---|---|
| Text.Split | worker/worker.php:135 | `explode`: at least one piece, and no piece contains the separator |
| Text.JoinSplit | worker/worker.php:135 | joining the pieces of a split gives back the string |
| Text.SplitJoin | send_data.py:467 | splitting a join of separator-free parts gives back the parts |
| Text.Trim | worker/worker.php:244 | `trim`: neither end of the result is in the trimmed set |
| Topic.TrimIsInfix | worker/worker.php:135 | the trimmed topic is an infix of the topic |
| Text.TrimStart | worker/worker.php:135 | `ltrim`: removes exactly a prefix drawn from the set, stopping at the first character outside it |
| Text.TrimEnd | worker/worker.php:135 | `rtrim`: removes exactly a suffix drawn from the set |
| Text.TrimUntouched | worker/worker.php:244 | a string whose ends are not whitespace is left unchanged by `trim` |
| Text.NatToString | send_data.py:466 | decimal text of a count: only digits, and no leading zero |
| Text.NatToStringValue | send_data.py:466 | the decimal text reads back as the number |
| Text.LeadingDigits | worker/worker.php:168 | the longest prefix of digits: a prefix, all digits, and the next character is not a digit |
| Text.PhpStringToInt | admin/controllers/dashboard/api.php:43-44 | PHP's `(int)` cast of a string stays within the 64-bit range |
| Text.NumericMagnitudeOfDigits | admin/controllers/dashboard/api.php:43-44 | a run of digits is read as its decimal value |
| Text.PhpStringToIntReadsExponent | admin/controllers/dashboard/api.php:43-44 | the cast reads a numeric string in full: `(int)"1e3"` is 1000 |
| Text.PhpStringToIntTruncatesFraction | admin/controllers/dashboard/api.php:43-44 | a fraction is truncated toward zero: `(int)"-2.9"` is -2 |
| Text.PhpStringToIntOfSigned | admin/controllers/dashboard/api.php:43-44 | an optional minus sign and a run of digits are read as their value, saturated to the 64-bit range |
| Text.PhpStringToIntOfIntToString | admin/controllers/dashboard/api.php:43-44 | casting a printed 64-bit integer gives the integer back |
| Text.LexLeTotal | assets/js/dashboard.js:436 | the code-point order used for sorting ids is total |
| Text.LexLeAntisymmetric | assets/js/dashboard.js:436 | the order is antisymmetric |
| Text.LexLeTransitive | assets/js/dashboard.js:436 | the order is transitive |
| Text.Smallest | assets/js/dashboard.js:436-438 | `ids.sort()[0]`: the least id of a non-empty set |
| Text.LeastUnique | assets/js/dashboard.js:436-438 | the least id is unique |
| Text.LeastExists | dashboard.php:466-467 | every non-empty set of ids has a least element |
| Text.SortedMembers | send_data.py:465 | `sorted(counts.keys())`: holds exactly the keys, each once |
| Text.SortedMembersFirst | send_data.py:465 | the sorted keys start with the least key, followed by the sorted rest |
| Text.SortMembers | send_data.py:465 | the selection loop computes the sorted key list |
| JsonValue.PhpLookup | worker/worker.php:165-168 | `isset($data[k])`: the key is present and not null, and the value is returned |
| JsonValue.PhpIntCastOfPrintedInt | worker/worker.php:168 | `(int)` of the printed form of an integer is that integer |
| JsonValue.Or | assets/js/dashboard.js:122-125 | `a \|\| b`: a if a is truthy, else b; the result is truthy iff either is |
| JsonValue.JsProp | assets/js/dashboard.js:118 | a property read is defined exactly on objects that hold the key |
| Topic.Segments | worker/worker.php:135 | `explode('/', trim($topic, '/'))` has at least one segment |
| Topic.TopicOfSpelled | worker/worker.php:160 | the topic of a device and a kind is `home/iot/<id>/<kind>` |
| Topic.StatusTopicSpelled | worker/worker.php:240 | the status topic is `home/iot/<id>/status/<sub>` |
| Topic.SegmentsOfCanonical | worker/worker.php:134-144 | a canonical topic splits into `home`, `iot`, the id and the rest |
| Topic.RoutesDataTopic | worker/worker.php:134-144 | `parse_topic` of `home/iot/<id>/<kind>` gives back (id, kind) |
| Topic.RoutesStatusTopic | worker/worker.php:140-142 | a status topic routes to `online` iff the fifth segment is `online`, and to `status` otherwise |
| Topic.RoutesBareStatusTopic | worker/worker.php:140-142 | `home/iot/<id>/status` routes to `status` |
| Topic.ForeignRootDropped | worker/worker.php:137 | any topic whose first two segments, after trimming slashes, are not `home`, `iot` gives ('', ''), whatever its length |
| Topic.ConfiguredRootDropped | worker/worker.php:137 | every topic built under another root (`MQTT_TOPIC_ROOT` set to `root0/root1`), with any number of segments after the device, gives ('', '') |
| Topic.ShortTopicDropped | worker/worker.php:135-136 | a topic whose slash-trimmed form holds at most two slashes (so fewer than four segments, e.g. `home/iot/x/`) gives ('', '') |
| Topic.FewSlashesDropped | worker/worker.php:135-136 | in particular any topic with at most two slashes gives ('', '') |
| Topic.ParseTopic | worker/worker.php:134-144 | device and kind are slash-free; a non-empty result comes from a topic whose segments start `home`, `iot` and its device is the third segment; kind `online` comes only from a fourth segment `online` or `status` followed by `online` |
| Topic.DeviceFromTopic | assets/js/dashboard.js:77-83 | a device the dashboard reads is slash-free and is the worker's device for that topic; when it reads none, the worker drops the topic |
| Topic.TypeFromTopic | assets/js/dashboard.js:84-91 | a kind is telemetry, events or online and comes from a topic of at least four segments; where the dashboard also reads a device, the kind is the worker's |
| Topic.SplitCount | worker/worker.php:135 | the number of segments is one more than the number of slashes |
| Topic.RoutersAgree | assets/js/dashboard.js:77-91 | every topic a dashboard accepts is parsed by the worker into the same device and kind; a topic the worker routes to a handler kind and a dashboard drops has `online` as its fourth segment |
| Topic.ClientDropsWhatWorkerDrops | assets/js/dashboard.js:77-91 | a topic the worker drops (empty device or a kind none of its handlers takes) is dropped by the dashboards |
| Ingest.DecodeBody | worker/worker.php:33-36 | `safe_json_decode`: an array or object is kept; anything else, including a parse failure, is `[]` |
| Ingest.MessageTime | worker/worker.php:23-31 | a missing ts gives now; a ts that is present but not a string is a TypeError; any other time comes from parsing the string |
| Ingest.IpOf | worker/worker.php:167 | ip is bound exactly when it is set |
| Ingest.OptIntField | worker/worker.php:168 | `isset ? (int) : null` |
| Ingest.OptIntFieldReadsExponent | worker/worker.php:168 | a faces field of `"1e3"` is stored as 1000, the cast reading the exponent |
| Ingest.OptStringField | worker/worker.php:211-212 | `isset ? (string) : null` |
| Ingest.DiskUsedPct | worker/worker.php:171-174 | set only when `disk` is an array holding `used_pct` |
| Ingest.LabelsField | worker/worker.php:210 | labels are stored only when they are an array, and then unchanged |
| Ingest.TelemetryRowOf | worker/worker.php:189-197 | the telemetry row carries device, ts and the whole payload; each optional column is set iff its field is |
| Ingest.EventRowOf | worker/worker.php:227-235 | the event row carries device, ts and the payload; faces, url and path are set iff given; labels as LabelsField |
| Ingest.UpsertDevice | worker/worker.php:105-114 | adds the id and leaves other devices alone; sets online and last_seen; ip, last_telemetry and last_event take a non-null new value and otherwise keep the stored one (`COALESCE`); a new row gets the given values; updated_at moves to now exactly when another column changed (`ON UPDATE CURRENT_TIMESTAMP`) |
| Ingest.UpdateOnline | worker/worker.php:116-122 | adds the id and leaves other devices alone; sets online and last_seen and keeps ip and the cached payloads; a new row gets nulls; updated_at moves to now exactly when another column changed |
| Ingest.TelemetryWrite | worker/worker.php:178-199 | the telemetry transaction appends one telemetry row, leaves events alone and upserts the device |
| Ingest.EventWrite | worker/worker.php:216-237 | the event transaction appends one event row, leaves telemetry alone and upserts the device |
| Ingest.LastTelemetryOfUnknown | worker/worker.php:189-197 | a device without rows has no latest telemetry |
| Ingest.LastEventOfUnknown | worker/worker.php:227-235 | a device without rows has no latest event |
| Ingest.LastTelemetryAppend | worker/worker.php:189-197 | appending a row changes only that device's latest telemetry |
| Ingest.LastEventAppend | worker/worker.php:227-235 | appending a row changes only that device's latest event |
| Ingest.RoutedDevice | worker/worker.php:161-162 | a routed device id is non-empty and slash-free |
| Ingest.TelemetryWriteValid | worker/worker.php:178-199 | a telemetry write keeps the tables valid: each device's cached payloads equal its latest rows |
| Ingest.TelemetryWriteLatest | worker/worker.php:180-197 | after a telemetry write every device's last_telemetry and last_event are its latest rows' payloads |
| Ingest.EventWriteValid | worker/worker.php:216-237 | an event write keeps the tables valid |
| Ingest.EventWriteLatest | worker/worker.php:218-235 | after an event write every device's cached payloads are its latest rows' payloads |
| Ingest.UpdateOnlineValid | worker/worker.php:240-250 | an online update keeps the tables valid |
| Ingest.DeliverValid | worker/worker.php:160-250 | every message keeps the connection invariant |
| Ingest.HandleDataValid | worker/worker.php:160-238 | a data message keeps the connection invariant |
| Ingest.DeliverOnlineValid | worker/worker.php:240-250 | an online message keeps the connection invariant |
| Ingest.UnroutedIsNoOp | worker/worker.php:161-162 | a message its handler does not route changes nothing and is ignored |
| Ingest.EmptyDeviceIgnored | worker/worker.php:162 | `home/iot//telemetry` is not routed |
| Ingest.EmptyDeviceTopic | worker/worker.php:162 | the topic of an empty device id is `home/iot//telemetry` |
| Ingest.OtherStatusIgnored | worker/worker.php:140-142 | `home/iot/x/status/foo` is not routed to the online handler |
| Ingest.OtherStatusTopic | worker/worker.php:140-142 | the spelling of that topic |
| Ingest.TelemetryStored | worker/worker.php:160-200 | a stored telemetry message commits exactly one new row for the topic's device with the decoded body, leaves events and every last_event alone, and sets last_telemetry |
| Ingest.EventStored | worker/worker.php:202-238 | a stored event commits exactly one new row and sets last_event; telemetry and every last_telemetry stay |
| Ingest.TelemetryAllOrNothing | worker/worker.php:178-199 | on the committed tables a telemetry message is both statements or neither |
| Ingest.EventAllOrNothing | worker/worker.php:216-237 | on the committed tables an event message is both statements or neither |
| Ingest.OnlineStored | worker/worker.php:240-250 | an online message sets online to whether the trimmed text is "1" and last_seen to now, and keeps ip and the payloads; a new device gets nulls |
| Ingest.FaultLeavesTransactionOpen | worker/worker.php:178-199 | a storage fault inside a telemetry transaction leaves it open and commits nothing |
| Ingest.StuckTransactionFreezes | worker/worker.php:253-256 | once a transaction is left open, no later message is ever committed |
| Ingest.OpenTransactionStaysOpen | worker/worker.php:178 | with a transaction open, a message commits nothing and the transaction stays open |
| Ingest.StuckTransactionExample | worker/worker.php:178-199 | a fault on one cam1 telemetry message keeps the next good one from ever being committed |
| Ingest.CanonicalCam1Topic | worker/worker.php:160 | the example topic is `home/iot/cam1/telemetry` |
| Ingest.RollbackNeverLeavesTransactionOpen | worker/worker.php:253-256 | with a rollback in the catch, no transaction is left open, the invariant holds, and a raise restores the committed tables |
| Ingest.UnraisedKeepsTransaction | worker/worker.php:160-250 | a message that does not raise leaves the transaction flag as it was; one that raises commits nothing |
| Ingest.HandleData | worker/worker.php:160-238 | a routed data message is never ignored; a raise commits nothing; a store happens only with no transaction open and leaves the view committed and none open |
| Ingest.Run | worker/worker.php:253-256 | the outer loop over messages; what it does once a transaction is stuck is StuckTransactionFreezes |
| Ingest.HandleDataOutcome | worker/worker.php:164-199 | a routed data message is never ignored; a raise commits nothing; a store happens only on a clean connection and commits both statements |
| Ingest.RollbackRunRecovers | worker/worker.php:253-256 | with the rollback, every run keeps the invariant and ends with no transaction open |
| Ingest.RollbackExample | worker/worker.php:253-256 | with the rollback, the second cam1 message of the example is committed |
| Ingest.Cam1FaultRolledBack | worker/worker.php:253-256 | the faulted message is rolled back to a clean store |
| Ingest.Cam1Delivered | worker/worker.php:160-165 | a cam1 telemetry message with an empty body reaches the handler stamped with its arrival time |
| Ingest.Cam1Committed | worker/worker.php:178-199 | a cam1 message on a clean store commits one row and the device |
| Ingest.Store.constructor | worker/worker.php:38-83 | empty tables, no transaction open |
| Ingest.Store.BeginTransaction | worker/worker.php:178 | fails exactly when a transaction is already open; changes no data |
| Ingest.Store.Commit | worker/worker.php:199 | the view becomes committed and the transaction closes |
| Ingest.Store.AutoCommit | worker/worker.php:245-249 | outside a transaction a statement is committed at once |
| Ingest.Store.ExecUpsertDevice | worker/worker.php:105-114 | the devices become the UpsertDevice result; nothing else changes |
| Ingest.Store.ExecUpdateOnline | worker/worker.php:116-122 | the devices become the UpdateOnline result; nothing else changes |
| Ingest.Store.ExecInsertTelemetry | worker/worker.php:124-127 | appends one telemetry row |
| Ingest.Store.ExecInsertEvent | worker/worker.php:129-132 | appends one event row |
| Ingest.Store.OnTelemetry | worker/worker.php:160-200 | the callback's new state and outcome are Deliver's, and the invariant is kept |
| Ingest.Store.OnEvent | worker/worker.php:202-238 | the callback's new state and outcome are Deliver's, and the invariant is kept |
| Ingest.Store.OnOnline | worker/worker.php:240-250 | the callback's new state and outcome are Deliver's, and the invariant is kept |
| Ingest.Store.RollBack | worker/worker.php:253-256 | the uncommitted writes are dropped and the transaction closes |
| Ingest.Store.HandleWithRollback | worker/worker.php:253-256 | the corrected handler leaves no transaction open and keeps the invariant |
| ReadApi.Clamp | admin/controllers/dashboard/api.php:45-46 | `max(lo, min(hi, x))` lies in [lo, hi], keeps values inside, and moves values outside to the nearest bound |
| ReadApi.ClampIdempotent | admin/controllers/dashboard/api.php:45-46 | clamping twice is clamping once |
| ReadApi.ApiTelLimit | admin/controllers/dashboard/api.php:43-45 | tel_limit is within [30, 2000]; without a parameter or environment variable it is 180 |
| ReadApi.ApiEvtLimit | admin/controllers/dashboard/api.php:44-46 | evt_limit is within [10, 500]; the default is 80 |
| ReadApi.ApiLimitsHonoured | admin/controllers/dashboard/api.php:43-46 | a requested limit inside the bounds is used as it is |
| ReadApi.ApiLimitsStable | admin/controllers/dashboard/api.php:43-46 | requesting the limit that was answered gives the same limit |
| ReadApi.ApiDefaultClamped | config.php:25-26 | without a parameter the configured default is clamped too (DASH_TEL_LIMIT=5 gives 30) |
| ReadApi.PageLimit | dashboard.php:62-63 | the page's limit is at least 10 when given, and the fallback otherwise |
| ReadApi.PageTelLimit | dashboard.php:62 | at least 10 |
| ReadApi.PageEvtLimit | dashboard.php:63 | at least 10 |
| ReadApi.PageLimitUnbounded | dashboard.php:62-63 | any requested limit of at least 10 is used, with no upper cap |
| ReadApi.ApiLimitReadsExponent | admin/controllers/dashboard/api.php:43-45 | `tel_limit=1e3` asks both endpoints for 1000 rows |
| ReadApi.LimitsDiffer | dashboard.php:62 | tel_limit=5000: the admin endpoint answers with 2000, the page with 5000 |
| ReadApi.SafeDecode | admin/controllers/dashboard/api.php:8-12 | null or an array; an array column is kept and anything else is null |
| ReadApi.PageDecode | dashboard.php:51-52 | a null column is null; an array column is kept |
| ReadApi.LabelsOut | admin/controllers/dashboard/api.php:73 | labels: a missing or falsy column is `[]`; an array is kept |
| ReadApi.DecodersAgreeOnArrays | dashboard.php:51-52 | the two decoders differ exactly on non-array, truthy columns |
| ReadApi.DeviceEntry | admin/controllers/dashboard/api.php:26-33 | an entry carries id, last_seen and ip; online is 1 iff set, 0 iff not; last_telemetry and last_event are the endpoint's decode of the cached columns |
| ReadApi.ListDevices | admin/controllers/dashboard/api.php:24-34 | the loop builds the entries in query order |
| ReadApi.DeviceEntriesListing | admin/controllers/dashboard/api.php:17-36 | every device appears exactly once, online as 0/1, latest update first |
| ReadApi.IdsOf | admin/controllers/dashboard/api.php:18-22 | a listing of a device set exists: each id once |
| ReadApi.DeviceListingExists | admin/controllers/dashboard/api.php:18-22 | `ORDER BY updated_at DESC` always has an answer |
| ReadApi.TelemetryOf | admin/controllers/dashboard/api.php:51 | `WHERE device_id = :d` on telemetry |
| ReadApi.EventsOf | admin/controllers/dashboard/api.php:63 | `WHERE device_id = :d` on events |
| ReadApi.InsertDescSorted | admin/controllers/dashboard/api.php:52 | insertion into a newest-first list keeps it newest first |
| ReadApi.InsertDescPerm | admin/controllers/dashboard/api.php:52 | insertion adds exactly the element |
| ReadApi.SortDescSorted | admin/controllers/dashboard/api.php:52 | `ORDER BY ts DESC` yields newest first |
| ReadApi.SortDescPerm | admin/controllers/dashboard/api.php:52 | the order holds the same rows |
| ReadApi.SortDescProps | admin/controllers/dashboard/api.php:52 | newest first, same rows, same count |
| ReadApi.SplitNewestFirst | admin/controllers/dashboard/api.php:52-53 | the first n rows of a newest-first list are newest first, and no later row is newer |
| ReadApi.Recent | admin/controllers/dashboard/api.php:48-58 | one answer of `ORDER BY ts DESC LIMIT n`; RecentIsRecentFetch proves it meets the query |
| ReadApi.RecentIsRecentFetch | admin/controllers/dashboard/api.php:48-58 | `ORDER BY ts DESC LIMIT n` has an answer: min(n, \|rows\|) rows, newest first, no row left out newer than one returned |
| ReadApi.PrefixRemainder | admin/controllers/dashboard/api.php:52-53 | the rows left out by the LIMIT are exactly the rest |
| ReadApi.FetchExists | admin/controllers/dashboard/api.php:48-70 | every request has result sets that fit the queries |
| ReadApi.TelemetryAnswer | admin/controllers/dashboard/api.php:58 | `array_reverse`: row i of the answer is fetched row n-1-i |
| ReadApi.FetchedEvent | admin/controllers/dashboard/api.php:70 | fetchAll returns the JSON columns as text |
| ReadApi.EventsAnswer | admin/controllers/dashboard/api.php:70-75 | one answered event per fetched row, in fetch order: its ts, faces, snapshot_url and snapshot_path kept, labels decoded or `[]`, payload decoded by the endpoint's decoder |
| ReadApi.ShapeEvents | admin/controllers/dashboard/api.php:72-75 | the by-reference foreach rewrites every row in place |
| ReadApi.ShapeFetchedEvents | admin/controllers/dashboard/api.php:70-75 | fetch, then rewrite: the events answer |
| ReadApi.TelemetryAnswerAscending | admin/controllers/dashboard/api.php:58 | the reversal makes telemetry oldest first |
| ReadApi.TelemetryAnswerRows | admin/controllers/dashboard/api.php:48-58 | every answered row is a stored row of the device |
| ReadApi.TelemetryAnswerNewest | admin/controllers/dashboard/api.php:48-58 | no stored row left out is newer than an answered one |
| ReadApi.TelemetryWindow | admin/controllers/dashboard/api.php:48-58 | telemetry history is min(n, \|rows\|) rows, oldest first; answer row i is the columns of fetched row n-1-i, the fetched rows a sub-multiset of the device's rows, with no row left out newer than an answered one |
| ReadApi.EventsWindow | admin/controllers/dashboard/api.php:60-75 | event history is min(n, \|rows\|) events, newest first; answer event i is fetched event i shaped, the fetched events a sub-multiset of the device's events, with no event left out newer than an answered one |
| ReadApi.WindowsDetermined | admin/controllers/dashboard/api.php:48-75 | a telemetry or events window is fixed by the fetch: any two windows over one fetch are equal, and equal to the shaped answer, so no answer repeats one row in place of another |
| ReadApi.WorkerLabelsShaped | admin/controllers/dashboard/api.php:73 | for a row the worker wrote, the labels answer is the published array, else `[]` |
| ReadApi.LastTelemetryIsArray | worker/worker.php:164 | cached telemetry is always an array |
| ReadApi.LastEventIsArray | worker/worker.php:206 | cached events are always an array |
| ReadApi.EndpointsAgreeOnWorkerData | dashboard.php:37-92 | on tables the worker wrote, both endpoints shape devices and events identically, and no payload reads back null |
| ReadApi.AdminResponse | admin/controllers/dashboard/api.php:14-80 | an empty api is 400; history without device_id is 400; an unknown api is 404; otherwise devices or history |
| ReadApi.PageResponse | dashboard.php:34-98 | no api renders the page; an unknown api, empty included, is 404; history without device_id is 400 |
| ReadApi.EmptyApiAnswers | dashboard.php:34-97 | `api=` gives 400 from the admin endpoint and 404 from the page; no api gives 400 or the page |
| ReadApi.AdminDevices | admin/controllers/dashboard/api.php:17-36 | the devices answer lists each device once, latest update first |
| ReadApi.AdminHistory | admin/controllers/dashboard/api.php:39-78 | history: min(tel_limit, n) telemetry rows of the device, one per fetched row in reverse fetch order (oldest first), at most 2000, none left out newer than an answered one; and min(evt_limit, m) events of the device, one shaped event per fetched event in fetch order (newest first), at most 500, none left out newer |
| ReadApi.PageHistory | dashboard.php:58-95 | the same one-row-per-fetched-row windows of the device's rows and events (sizes, orders, newest rows), with the page's limits |
| Reconciler.NewDevice | assets/js/dashboard.js:119 | a new entry has exactly device_id, set to the given id, and online, set to 0 |
| Reconciler.NormalizeEntry | assets/js/dashboard.js:121-125 | a normalized entry gains the coalesced fields and online |
| Reconciler.NormalizeCoalesces | assets/js/dashboard.js:122-125 | a falsy polled field keeps the current value, a truthy one replaces it, and other devices are untouched |
| Reconciler.NormalizeOnline | assets/js/dashboard.js:121 | online is replaced only by a number |
| Reconciler.PollKeepsDevices | assets/js/dashboard.js:434 | a poll never removes a device |
| Reconciler.PollAddsDevices | assets/js/dashboard.js:434 | every polled row with a truthy id is in the roster afterwards |
| Reconciler.LiveCopy | assets/js/dashboard.js:474 | the live copy has the event's keys plus device_id; device_id is the routed id and every other field of the event is kept unchanged |
| Reconciler.Prepend | assets/js/dashboard.js:474-475 | `unshift` then `slice(0, 40)`: x first, then the old buffer, capped at 40 |
| Reconciler.PushIgnoresOtherDevices | assets/js/dashboard.js:472 | an event for another device changes nothing |
| Reconciler.PushNewestFirst | assets/js/dashboard.js:470-487 | an accepted event is first, the older ones follow in order, and the buffer holds at most 40 |
| Reconciler.NewestFirst | assets/js/dashboard.js:474 | a run of pushes, newest first |
| Reconciler.PushBuffer | assets/js/dashboard.js:474-475 | what one accepted push does to the buffer |
| Reconciler.PrependTake | assets/js/dashboard.js:474-475 | pushing onto the newest 40 gives the newest 40 of the longer list |
| Reconciler.PushAllKeepsNewest | assets/js/dashboard.js:470-487 | after any run of events, the buffer is the newest 40, newest first |
| Reconciler.PushAllStep | assets/js/dashboard.js:470-487 | one step of that run |
| Reconciler.TelemetryUpdatesRoster | assets/js/dashboard.js:489-499 | live telemetry sets last_telemetry, ip, last_seen and online=1; other devices stay |
| Reconciler.OnlineUpdatesRoster | assets/js/dashboard.js:501-508 | an online message sets only online and last_seen |
| Reconciler.MessageDropped | assets/js/dashboard.js:541-544 | a topic the dashboard does not route changes nothing |
| Reconciler.MessageSelectsFirst | assets/js/dashboard.js:546-549 | with nothing selected, the first routed message selects its device |
| Reconciler.MessageKeepsSelection | assets/js/dashboard.js:546-549 | a routed message never changes an existing selection |
| Reconciler.UpdatesKeepSelection | assets/js/dashboard.js:551-571 | none of the three updates touches the selection |
| Reconciler.KeysAppend | assets/js/dashboard.js:357-373 | the keys of a concatenation are the union |
| Reconciler.Dedup | assets/js/dashboard.js:356-373 | the merged list is no longer than its input and holds no key already seen |
| Reconciler.DedupSubsequence | assets/js/dashboard.js:356-373 | de-duplication only leaves entries out, keeping their order |
| Reconciler.DedupUnseen | assets/js/dashboard.js:361 | no entry whose key was already seen survives |
| Reconciler.DedupDistinct | assets/js/dashboard.js:356-373 | each key appears at most once in the merged list |
| Reconciler.DedupKeys | assets/js/dashboard.js:356-373 | every key not already seen keeps exactly one entry |
| Reconciler.SeenAfterKeys | assets/js/dashboard.js:363 | after a scan, `seen` holds the scanned keys |
| Reconciler.DedupAppend | assets/js/dashboard.js:356-373 | merging live then polled is de-duplicating live, then polled against live's keys |
| Reconciler.DedupAppendScan | assets/js/dashboard.js:356-373 | the same, with `seen` as the scan leaves it |
| Reconciler.MergedProperties | assets/js/dashboard.js:356-383 | the merged list has distinct keys, all live entries first, live and polled each in order, no polled entry repeating a live key, and every key of either source |
| Reconciler.MergeSplit | assets/js/dashboard.js:356-373 | splitting the merge at the boundary between the two sources |
| Reconciler.MergeOrder | assets/js/dashboard.js:356-373 | live entries come first, and no polled entry repeats a live key |
| Reconciler.SubsequenceFlag | assets/js/dashboard.js:362-370 | a subsequence of entries carrying one flag carries that flag |
| Reconciler.FmtUptime | assets/js/dashboard.js:28-37 | anything but a number shows `—`; a number shows text starting with a digit and ending in `m` |
| Reconciler.UptimeParts | assets/js/dashboard.js:30-33 | days, hours below 24 and minutes below 60 account for the seconds exactly, apart from the leftover seconds |
| Reconciler.UptimeShape | assets/js/dashboard.js:28-37 | under an hour shows minutes; under a day, hours and minutes; otherwise all three |
| Reconciler.Dashboard.constructor | assets/js/dashboard.js:3-12 | the selection comes from localStorage, with empty treated as none; roster and buffer start empty |
| Reconciler.Dashboard.NormalizeDevice | assets/js/dashboard.js:117-127 | the roster becomes Normalize's; the selection and buffer stay |
| Reconciler.Dashboard.LoadDevices | assets/js/dashboard.js:432-449 | the roster is the poll merged in; an unset or vanished selection moves to the least id; the buffer is not cleared |
| Reconciler.Dashboard.SelectDevice | assets/js/dashboard.js:460-468 | the state becomes Select's |
| Reconciler.Dashboard.ClearLive | assets/js/dashboard.js:590-592 | the Clear button empties only the buffer |
| Reconciler.Dashboard.PushLiveEvent | assets/js/dashboard.js:470-487 | the state becomes PushLive's, and the buffer stays at most 40 |
| Reconciler.Dashboard.ApplyLiveTelemetry | assets/js/dashboard.js:489-499 | the state becomes ApplyTelemetry's |
| Reconciler.Dashboard.ApplyOnlineStatus | assets/js/dashboard.js:501-508 | the state becomes ApplyOnline's |
| Reconciler.Dashboard.HandleMessage | assets/js/dashboard.js:541-572 | the state becomes OnMessage's |
| Reconciler.Dashboard.MergeEvents | assets/js/dashboard.js:356-383 | the `seen`/`combined` loops compute Merged |
| InlineDashboard.Assign | dashboard.php:462 | `Object.assign`: every own property of the row, nulls included, replaces the entry's, and the entry's other fields stay |
| InlineDashboard.PollRows | dashboard.php:460-463 | the loop runs to the end exactly when no polled row is null |
| InlineDashboard.PollRowsStep | dashboard.php:460-463 | one iteration: a null row stops the loop, any other row is assigned and the loop goes on |
| InlineDashboard.PollOverwrites | dashboard.php:460-463 | a polled row overwrites its entry field by field and leaves other devices alone |
| InlineDashboard.NullPollContrast | dashboard.php:462 | a null last_telemetry clears the page's value; dashboard.js keeps it |
| InlineDashboard.PollKeepsDevices | dashboard.php:460-463 | a poll never removes a device |
| InlineDashboard.PollStopsAtNull | dashboard.php:460-461 | a null row throws: the rows before it are applied, the rest are not, and loadDevices stops |
| InlineDashboard.SelectionContrast | dashboard.php:465-468 | a selection missing from the roster: the page keeps it, dashboard.js moves it |
| InlineDashboard.UnroutedIgnored | dashboard.php:537-540 | a topic the routing rejects changes nothing |
| InlineDashboard.RoutedMessage | dashboard.php:537-573 | a routed message adds its device, leaves other devices alone, and selects only when nothing is selected |
| InlineDashboard.MalformedStillCreates | dashboard.php:542-569 | a body that does not parse still creates `{ device_id, online: 0 }` and changes nothing else |
| InlineDashboard.MalformedContrast | dashboard.php:542 | dashboard.js drops an unparseable body before touching the roster; the page creates the device |
| InlineDashboard.LiveTelemetry | dashboard.php:550-559 | last_telemetry becomes the body; a non-null body also sets ip, last_seen and online=1; every other field stays |
| InlineDashboard.LiveEvent | dashboard.php:561-569 | last_event becomes the body; a non-null body also sets last_seen and online=1; every other field, ip included, stays |
| InlineDashboard.LiveOnline | dashboard.php:544-548 | online is 1 iff the trimmed text is "1" and 0 otherwise; last_seen is now; every other field stays |
| InlineDashboard.TelemetryFields | dashboard.php:550-559 | live telemetry sets the body, ip, last_seen and online=1, and leaves last_event alone |
| InlineDashboard.EventFields | dashboard.php:561-569 | a live event sets the body, last_seen and online=1, never ip |
| InlineDashboard.NullBodyQuirk | dashboard.php:553-554 | a `null` body only overwrites the stored body with null, then throws |
| InlineDashboard.OnlineFields | dashboard.php:544-548 | online is 1 iff the trimmed text is "1", last_seen is now, and every other field stays |
| InlineDashboard.InlinePage.constructor | dashboard.php:204-209 | empty roster, no selection |
| InlineDashboard.InlinePage.LoadDevices | dashboard.php:455-473 | the roster is the poll assigned in; only an unset selection moves, and only if the loop finished |
| InlineDashboard.InlinePage.SelectDevice | dashboard.php:484-489 | sets the selection only |
| InlineDashboard.InlinePage.HandleMessage | dashboard.php:537-573 | the state becomes OnMessage's |
| Spool.Size | send_data.py:171 | the file size counts at least one byte per line |
| Spool.AppendAddsLast | send_data.py:121-128 | append adds exactly one line at the end; the file keeps everything while it fits in max_bytes, and otherwise its last 5000 lines |
| Spool.AppendBounded | send_data.py:167-178 | after an append the file fits in max_bytes or holds at most 5000 lines |
| Spool.TrimKeepsShortFile | send_data.py:175 | a file of at most 5000 lines is never cut, however large |
| Spool.OversizedLineStays | send_data.py:167-178 | a single line larger than max_bytes stays |
| Spool.AppendToMissing | send_data.py:124 | appending to a missing spool gives a one-line file |
| Spool.KeptLines | send_data.py:145-157 | the kept lines are lines of the file, no more of them than the file has |
| Spool.SentCount | send_data.py:145-157 | the count is at most the number of lines, and positive only if some line was published |
| Spool.FlushAccounts | send_data.py:145-157 | every processed line is dropped, published or kept, exactly one of the three |
| Spool.KeptInOrder | send_data.py:154-157 | kept lines keep their order, and each was refused by the broker |
| Spool.FlushNothing | send_data.py:131-142 | a missing or empty spool flushes nothing and is deleted |
| Spool.FlushKeepsTail | send_data.py:143-165 | lines past max_records stay at the end; the file is deleted exactly when nothing is kept; the result counts published lines |
| Spool.FlushAllAccepted | send_data.py:143-165 | when the broker takes everything within max_records, the spool empties and reports every line |
| Spool.AllPublished | send_data.py:153-155 | all accepted: nothing kept, every line counted |
| Spool.FlushSingle | send_data.py:143-165 | a one-line spool is deleted when its message goes out, and kept otherwise |
| Spool.FlushRaises | send_data.py:153 | a record without topic or payload raises, and the file stays as it was |
| Spool.SpoolFile.constructor | send_data.py:116-119 | holds the existing file and max_bytes |
| Spool.SpoolFile.Append | send_data.py:121-128 | the file becomes Appended's, and append returns True |
| Spool.SpoolFile.TrimIfNeeded | send_data.py:167-178 | the file becomes Trimmed's |
| Spool.SpoolFile.Flush | send_data.py:130-165 | the loop leaves the file and result of Flushed |
| Publisher.CountLabels | send_data.py:461-463 | the counts hold exactly the labels, each with its number of occurrences |
| Publisher.BuildParts | send_data.py:464-466 | `faces:<n>` followed by `<label>:<count>` for each sorted key |
| Publisher.Signature | send_data.py:460-467 | the signature is the hash of the canonical text of faces and label counts |
| Publisher.SignatureOrderIndependent | send_data.py:460-467 | the order of detections does not change the signature |
| Publisher.BlankFrameText | send_data.py:464 | a blank frame's text is `faces:0` |
| Publisher.CountOfOneKind | send_data.py:461-463 | with one kind of label, its count is the number of detections |
| Publisher.OneKindParts | send_data.py:464-467 | one kind of object: `faces:<n>\|<label>:<count>` |
| Publisher.SortedSingleton | send_data.py:465 | sorting one key gives that key |
| Publisher.FrameStepOutcome | send_data.py:477-497 | a frame emits iff it is not blank and should_emit_event agrees; a blank frame only records its signature; a suppressed one changes nothing; an emitted one records its signature and the time after the hand-over |
| Publisher.ShouldEmit | send_data.py:469-475 | the rule itself; NewSignatureEmits, RepeatNeedsCooldown and ClockBehindSuppresses state when it holds |
| Publisher.NewSignatureEmits | send_data.py:471-472 | a new signature is emitted iff the clock is not behind the last event |
| Publisher.RepeatNeedsCooldown | send_data.py:473-474 | the same signature is emitted iff the cooldown has passed |
| Publisher.ClockBehindSuppresses | send_data.py:469-475 | a clock behind the last event suppresses every signature |
| Publisher.FirstDetectionEmitted | send_data.py:314-315 | the first detection after start-up is emitted |
| Publisher.BlankFrameLiftsCooldown | send_data.py:480-482 | a blank frame between two identical detections lifts the cooldown |
| Publisher.RunFrames | send_data.py:477-497 | one decision per frame |
| Publisher.QuietWithinCooldown | send_data.py:473-475 | repeats of the last signature inside the cooldown are all suppressed and change nothing |
| Publisher.EventPayload | send_data.py:447-458 | the event payload is an object whose labels are an array |
| Publisher.EventPayloadStored | send_data.py:447-458 | the worker stores the labels in order, the face count, and the snapshot path and URL exactly when given |
| Publisher.SpoolRecord | send_data.py:387 | the spooled record is a valid spool record |
| Publisher.SpoolRecordCarriesMessage | send_data.py:387 | the record carries the topic, the wire text, qos and retain |
| Publisher.SpooledMessageReplayed | send_data.py:383-389 | a message spooled into an empty spool is replayed by the next flush: deleted when the broker takes it, kept when refused |
| Publisher.Publisher.constructor | send_data.py:304-315 | disconnected, `last_sig = ""`, `last_event = 0`, the events topic |
| Publisher.Publisher.PublishOrSpool | send_data.py:383-389 | returns True iff connected and published; otherwise exactly one record is appended to the spool |
| Publisher.Publisher.HandleFrame | send_data.py:477-497 | the bookkeeping and decision are FrameStep's; only an emitted event that is not published reaches the spool, as one record |

## Left out

- MQTT transport is not modelled: connection setup, subscriptions, QoS delivery, the reconnect loops, `wait_for_publish` and the `on_connect` flush wiring. The broker's answer is a boolean parameter.
- The clock and ISO-8601 parsing are parameters, and timestamps are whole seconds. `time.time()` is a float in Python; the model reads it as an integer.
- Floating point is not modelled. This covers the CPU temperature, the disk percentage, detection confidence, and the `(float)` casts into the FLOAT columns; those columns keep the raw JSON value.
- JSON encoding and decoding, and sha1, are parameters. JSON numbers are integers.
- TelemetryRowOf (Ingest.TelemetryRowOf): the stored payload is the decoded body itself, not `json_encode` of the PHP array it decodes to. PHP re-encodes an empty object as `[]` and an object whose keys are `"0"`…`"n-1"` in order as a list; JSON objects here are maps without key order, so that re-encoding is not modelled, and neither is it in TelemetryStored or the cached last_telemetry.
- EventRowOf (Ingest.EventRowOf): likewise for the event payload, the labels column and the cached last_event.
- PhpStringToInt (Text.PhpStringToInt): the value of a numeric string is computed exactly and then truncated; PHP reads a string with a fraction or an exponent as a double first, so where a double cannot hold that value exactly (beyond 2^53, or a fraction that rounds across an integer) PHP's result can differ from the exact truncation. The same holds for OptIntField, ApiTelLimit, ApiEvtLimit and PageLimit, which use it.
- The publisher's `on_connect` flush runs on paho's network thread while the main loop may append to the spool; that interleaving is not modelled, and each spool operation runs alone.
- LiveCopy (Reconciler.LiveCopy, through JsonValue.Spread): JavaScript's `{ ...evt }` of an array or string body copies its index keys `"0"`, `"1"`, …; the model copies only an object's members, since neither the merge nor the live buffer reads those keys.
- The dashboards keep devices in plain objects (`{}`), so an id such as `constructor` or `__proto__` would read inherited properties; ids are modelled as map keys without a prototype.
- Camera capture, YOLO and face detection, `save_snapshot`, and the HTTP upload are not modelled. Their results are inputs to `HandleFrame`.
- Spool file I/O failures are not modelled. `Append` always succeeds. Lines are ASCII, so one character is one byte.
- The spool's `flush` never uses its `qos`/`retain` defaults: a record written by `publish_or_spool` always carries them.
- Environment-variable parsing is not modelled (`env_int`, `env_bool`, `env_str`). The cooldown, `max_bytes` and `upload_configured` are constructor arguments.
- Telemetry publishing, the heartbeat and the main loop of `send_data.py` are not modelled.
- `localeCompare` is modelled as code-point order (Text.LexLe); locale collation is not modelled.
- DOM and Chart.js rendering are not modelled, nor is `fmtAgo`. Of `localStorage`, only the restored selection is.
- Login and authentication (`require_login`) and array-valued `$_GET` parameters are not modelled.
- The history fetch that `selectDevice`, `pushLiveEvent` and `loadDevices` start asynchronously is not modelled.
- The database schema (`init_db`) is not modelled beyond the columns the statements write.
- ReadApi.IsRecentFetch: rows with equal timestamps may come in any order. The model proves that some fetch meets the query and states properties of every fetch, not MySQL's tie order.
- ReadApi.IsDeviceListing: likewise for devices with equal `updated_at`.

## Findings

| source | as written | input that shows it | evidently intended | confidence | as-written member | corrected member |
|---|---|---|---|---|---|---|
| worker/worker.php:178-199, 253-256 | a statement that throws inside `beginTransaction … commit` is caught by the outer loop without `rollBack`; the PDO connection keeps the open transaction, so every later `beginTransaction` throws and the online updates go into the never-committed transaction | a telemetry message on `home/iot/cam1/telemetry` whose upsert is rejected, followed by a good one: nothing is ever committed again | roll back in the catch, so a fault costs only the message that hit it | not executed | Ingest.StuckTransactionFreezes | Ingest.RollbackRunRecovers |
