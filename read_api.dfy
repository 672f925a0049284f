/** The dashboard's read side: the admin JSON endpoint
    (admin/controllers/dashboard/api.php) and the older `?api=` branch at
    the top of dashboard.php. Both answer `devices` with the device table
    and `history` with a device's recent telemetry and events.

    The database is not executed: a request is answered from the result
    sets its SELECTs returned (`Fetched`), and `IsDeviceListing` /
    `IsRecentFetch` say which result sets MySQL may return for the
    statements the code prepares. A fetched JSON column is represented by
    the value its text encodes (None for SQL NULL). */
module ReadApi {
  import Text
  import opened JsonValue
  import opened Ingest

  // ---------------------------------------------------------------------
  // Requests, configuration and responses
  // ---------------------------------------------------------------------

  /** `$_GET`: parameter name to string value. */
  type Query = map<string, string>

  /** `isset($_GET[k]) ? (string) $_GET[k] : ''`. */
  function Param(q: Query, key: string): string
  {
    if key in q then q[key] else ""
  }

  /** The environment variables DASH_TEL_LIMIT and DASH_EVT_LIMIT (None
      when getenv returns false). */
  datatype Config = Config(telLimit: Option<string>, evtLimit: Option<string>)

  /** Which of the two scripts answers. */
  datatype Endpoint = Admin | Page

  /** A device entry of the `devices` answer. */
  datatype DeviceOut = DeviceOut(
    deviceId: string,
    online: int,
    lastSeen: Timestamp,
    ip: Option<string>,
    lastTelemetry: Json,
    lastEvent: Json)

  /** The six telemetry columns the history query selects; `payload` is
      returned as the stored JSON text, not decoded. */
  datatype TelemetryOut = TelemetryOut(
    ts: Timestamp,
    cpuTemp: Option<Json>,
    uptime: Option<int>,
    diskUsedPct: Option<Json>,
    ip: Option<string>,
    payload: Json)

  /** A PHP array slot that first holds a fetched JSON column (its text)
      and, after the by-reference rewrite, the decoded value. */
  datatype Cell = Raw(text: Option<Json>) | Decoded(value: Json)

  /** An event row of the `history` answer. */
  datatype EventOut = EventOut(
    ts: Timestamp,
    faces: Option<int>,
    labels: Cell,
    snapshotUrl: Option<string>,
    snapshotPath: Option<string>,
    payload: Cell)

  datatype Response =
    | Failure(status: int, error: string)
    | DeviceList(devices: seq<DeviceOut>)
    | History(telemetry: seq<TelemetryOut>, events: seq<EventOut>)

  /** The result sets of the SELECTs of one request. */
  datatype Fetched = Fetched(deviceIds: seq<string>, telemetry: seq<TelemetryRow>, events: seq<EventRow>)

  function Min(a: int, b: int): int
  {
    if a <= b then a else b
  }

  // ---------------------------------------------------------------------
  // Limits
  // ---------------------------------------------------------------------

  const TelLimitMin := 30
  const TelLimitMax := 2000
  const EvtLimitMin := 10
  const EvtLimitMax := 500
  /** config.php's fallbacks when the environment variable is unset. */
  const DefaultTelLimit := 180
  const DefaultEvtLimit := 80

  /** `max(lo, min(hi, x))`. */
  function Clamp(lo: int, hi: int, x: int): (r: int)
    ensures lo <= hi ==> lo <= r <= hi
    ensures lo <= x <= hi ==> r == x
    ensures x <= lo ==> r == lo
    ensures lo <= hi <= x ==> r == hi
  {
    var m := if hi <= x then hi else x;
    if lo <= m then m else lo
  }

  /** `getenv(k) !== false ? (int) getenv(k) : fallback`. */
  function Configured(env: Option<string>, fallback: int): int
  {
    if env.Some? then Text.PhpStringToInt(env.value) else fallback
  }

  /** `isset($_GET[k]) ? (int) $_GET[k] : fallback`. */
  function Requested(q: Query, key: string, fallback: int): int
  {
    if key in q then Text.PhpStringToInt(q[key]) else fallback
  }

  /** The admin endpoint's telemetry limit: the request, else the
      configured default, clamped into [30, 2000]. */
  function ApiTelLimit(q: Query, config: Config): (n: int)
    ensures TelLimitMin <= n <= TelLimitMax
    ensures "tel_limit" !in q && config.telLimit.None? ==> n == DefaultTelLimit
  {
    Clamp(TelLimitMin, TelLimitMax, Requested(q, "tel_limit", Configured(config.telLimit, DefaultTelLimit)))
  }

  /** The admin endpoint's event limit, clamped into [10, 500]. */
  function ApiEvtLimit(q: Query, config: Config): (n: int)
    ensures EvtLimitMin <= n <= EvtLimitMax
    ensures "evt_limit" !in q && config.evtLimit.None? ==> n == DefaultEvtLimit
  {
    Clamp(EvtLimitMin, EvtLimitMax, Requested(q, "evt_limit", Configured(config.evtLimit, DefaultEvtLimit)))
  }

  /** The page's limits: `max(10, (int) x)` when given, a fixed default
      otherwise, and no upper bound. */
  function PageLimit(q: Query, key: string, fallback: int): (n: int)
    ensures key in q ==> n >= 10
    ensures key !in q ==> n == fallback
  {
    if key in q then
      var x := Text.PhpStringToInt(q[key]);
      if x <= 10 then 10 else x
    else fallback
  }

  function PageTelLimit(q: Query): (n: int)
    ensures n >= 10
  {
    PageLimit(q, "tel_limit", 120)
  }

  function PageEvtLimit(q: Query): (n: int)
    ensures n >= 10
  {
    PageLimit(q, "evt_limit", 50)
  }

  /** Clamping an already clamped limit changes nothing. */
  lemma ClampIdempotent(lo: int, hi: int, x: int)
    requires lo <= hi
    ensures Clamp(lo, hi, Clamp(lo, hi, x)) == Clamp(lo, hi, x)
  {
  }

  /** A requested limit inside the admin range is used as given. */
  lemma ApiLimitsHonoured(config: Config, tel: int, evt: int)
    requires TelLimitMin <= tel <= TelLimitMax && EvtLimitMin <= evt <= EvtLimitMax
    ensures ApiTelLimit(map["tel_limit" := Text.IntToString(tel)], config) == tel
    ensures ApiEvtLimit(map["evt_limit" := Text.IntToString(evt)], config) == evt
  {
    var qt: Query := map["tel_limit" := Text.IntToString(tel)];
    var qe: Query := map["evt_limit" := Text.IntToString(evt)];
    Text.PhpStringToIntOfIntToString(tel);
    assert Requested(qt, "tel_limit", Configured(config.telLimit, DefaultTelLimit)) == tel;
    Text.PhpStringToIntOfIntToString(evt);
    assert Requested(qe, "evt_limit", Configured(config.evtLimit, DefaultEvtLimit)) == evt;
  }

  /** Sending the effective limit back as the request gives the same
      limit: the clamp is idempotent through the query string. */
  lemma ApiLimitsStable(q: Query, config: Config)
    ensures ApiTelLimit(q["tel_limit" := Text.IntToString(ApiTelLimit(q, config))], config) == ApiTelLimit(q, config)
    ensures ApiEvtLimit(q["evt_limit" := Text.IntToString(ApiEvtLimit(q, config))], config) == ApiEvtLimit(q, config)
  {
    Text.PhpStringToIntOfIntToString(ApiTelLimit(q, config));
    Text.PhpStringToIntOfIntToString(ApiEvtLimit(q, config));
  }

  /** A configured default outside the range is clamped like a request. */
  lemma ApiDefaultClamped(config: Config)
    ensures ApiTelLimit(map[], config) == Clamp(TelLimitMin, TelLimitMax, Configured(config.telLimit, DefaultTelLimit))
    ensures ApiEvtLimit(map[], config) == Clamp(EvtLimitMin, EvtLimitMax, Configured(config.evtLimit, DefaultEvtLimit))
    ensures config.telLimit == Some("5") ==> ApiTelLimit(map[], config) == TelLimitMin
  {
    if config.telLimit == Some("5") {
      Text.PhpStringToIntOfIntToString(5);
      assert Text.IntToString(5) == "5";
    }
  }

  /** The page honours any 64-bit request of at least 10, however large. */
  lemma PageLimitUnbounded(n: int)
    requires 10 <= n <= Text.PhpIntMax
    ensures PageTelLimit(map["tel_limit" := Text.IntToString(n)]) == n
    ensures PageEvtLimit(map["evt_limit" := Text.IntToString(n)]) == n
  {
    Text.PhpStringToIntOfIntToString(n);
  }

  /** The same request of 5000 rows: the admin endpoint caps it, the page does not. */
  lemma LimitsDiffer(config: Config)
    ensures ApiTelLimit(map["tel_limit" := Text.IntToString(5000)], config) == TelLimitMax
    ensures PageTelLimit(map["tel_limit" := Text.IntToString(5000)]) == 5000
  {
    Text.PhpStringToIntOfIntToString(5000);
  }

  /** A limit written with an exponent is read in full: tel_limit=1e3
      asks for 1000 rows, not 1. */
  lemma ApiLimitReadsExponent(config: Config)
    ensures ApiTelLimit(map["tel_limit" := "1e3"], config) == 1000
    ensures PageTelLimit(map["tel_limit" := "1e3"]) == 1000
  {
    Text.PhpStringToIntReadsExponent();
  }

  // ---------------------------------------------------------------------
  // Column decoding
  // ---------------------------------------------------------------------

  /** PHP truthiness of a fetched JSON column: NULL and the text "0" are
      falsy (no other JSON text is an empty string or "0"). */
  predicate ColumnTruthy(col: Option<Json>)
  {
    col.Some? && col.value != JNum(0)
  }

  /** safe_json_decode: an array, or null. */
  function SafeDecode(col: Option<Json>): (r: Json)
    ensures r == JNull || IsPhpArray(r)
    ensures col.Some? && IsPhpArray(col.value) ==> r == col.value
    ensures !(col.Some? && IsPhpArray(col.value)) ==> r == JNull
  {
    if !ColumnTruthy(col) then JNull
    else if IsPhpArray(col.value) then col.value
    else JNull
  }

  /** The page's `$c ? json_decode($c, true) : null`: any decoded value. */
  function PageDecode(col: Option<Json>): (r: Json)
    ensures col.None? ==> r == JNull
    ensures col.Some? && IsPhpArray(col.value) ==> r == col.value
  {
    if ColumnTruthy(col) then col.value else JNull
  }

  function DecodeColumn(endpoint: Endpoint, col: Option<Json>): Json
  {
    match endpoint
    case Admin => SafeDecode(col)
    case Page => PageDecode(col)
  }

  /** `$e['labels'] ? json_decode($e['labels'], true) : []`. */
  function LabelsOut(col: Option<Json>): (r: Json)
    ensures col.None? ==> r == JArr([])
    ensures col.Some? && IsPhpArray(col.value) ==> r == col.value
    ensures col == Some(JNum(0)) ==> r == JArr([])
  {
    if ColumnTruthy(col) then col.value else JArr([])
  }

  /** The two decoders differ only on columns that do not hold an array. */
  lemma DecodersAgreeOnArrays(col: Option<Json>)
    ensures (col.None? || IsPhpArray(col.value)) ==> SafeDecode(col) == PageDecode(col)
    ensures SafeDecode(col) != PageDecode(col) <==> col.Some? && !IsPhpArray(col.value) && col.value != JNum(0) && col.value != JNull
  {
  }

  // ---------------------------------------------------------------------
  // The devices query
  // ---------------------------------------------------------------------

  /** What `SELECT … FROM iot_devices ORDER BY updated_at DESC` may return:
      every device once, latest update first (ties in any order). */
  predicate IsDeviceListing(devices: map<string, DeviceRow>, ids: seq<string>)
  {
    && (forall i :: 0 <= i < |ids| ==> ids[i] in devices)
    && multiset(ids) == multiset(devices.Keys)
    && (forall i, j :: 0 <= i < j < |ids| ==> devices[ids[i]].updatedAt >= devices[ids[j]].updatedAt)
  }

  /** One entry of the `devices` answer. */
  function DeviceEntry(id: string, row: DeviceRow, endpoint: Endpoint): (d: DeviceOut)
    ensures d.deviceId == id && d.lastSeen == row.lastSeen && d.ip == row.ip
    ensures d.online == 1 <==> row.online
    ensures d.online == 0 <==> !row.online
    ensures d.lastTelemetry == DecodeColumn(endpoint, row.lastTelemetry)
    ensures d.lastEvent == DecodeColumn(endpoint, row.lastEvent)
  {
    DeviceOut(id, if row.online then 1 else 0, row.lastSeen, row.ip,
      DecodeColumn(endpoint, row.lastTelemetry), DecodeColumn(endpoint, row.lastEvent))
  }

  /** The entries of the `devices` answer, in the order of the query. */
  function DeviceEntries(ids: seq<string>, devices: map<string, DeviceRow>, endpoint: Endpoint): seq<DeviceOut>
    requires forall i :: 0 <= i < |ids| ==> ids[i] in devices
  {
    seq(|ids|, i requires 0 <= i < |ids| => DeviceEntry(ids[i], devices[ids[i]], endpoint))
  }

  /** The `foreach ($rows as $r) $devices[] = …` loop. */
  method ListDevices(ids: seq<string>, devices: map<string, DeviceRow>, endpoint: Endpoint) returns (out: seq<DeviceOut>)
    requires forall i :: 0 <= i < |ids| ==> ids[i] in devices
    ensures out == DeviceEntries(ids, devices, endpoint)
  {
    out := [];
    for i := 0 to |ids|
      invariant |out| == i
      invariant forall k :: 0 <= k < i ==> out[k] == DeviceEntry(ids[k], devices[ids[k]], endpoint)
    {
      out := out + [DeviceEntry(ids[i], devices[ids[i]], endpoint)];
    }
  }

  function EntryIds(entries: seq<DeviceOut>): seq<string>
  {
    seq(|entries|, i requires 0 <= i < |entries| => entries[i].deviceId)
  }

  /** The `devices` answer lists every device exactly once, online as 0 or
      1, latest update first. */
  lemma DeviceEntriesListing(ids: seq<string>, devices: map<string, DeviceRow>, endpoint: Endpoint)
    requires IsDeviceListing(devices, ids)
    ensures |DeviceEntries(ids, devices, endpoint)| == |devices|
    ensures multiset(EntryIds(DeviceEntries(ids, devices, endpoint))) == multiset(devices.Keys)
    ensures forall i :: 0 <= i < |ids| ==>
      var d := DeviceEntries(ids, devices, endpoint)[i];
      d.deviceId in devices && d.online == (if devices[d.deviceId].online then 1 else 0)
    ensures forall i, j :: 0 <= i < j < |ids| ==>
      devices[DeviceEntries(ids, devices, endpoint)[i].deviceId].updatedAt
        >= devices[DeviceEntries(ids, devices, endpoint)[j].deviceId].updatedAt
  {
    var out := DeviceEntries(ids, devices, endpoint);
    assert EntryIds(out) == ids;
    assert |multiset(ids)| == |ids|;
    assert |multiset(devices.Keys)| == |devices.Keys|;
  }

  /** Some order of the device ids satisfies the query. */
  ghost function IdsOf(s: set<string>): (r: seq<string>)
    ensures multiset(r) == multiset(s)
    ensures forall i :: 0 <= i < |r| ==> r[i] in s
  {
    if s == {} then []
    else
      var x :| x in s;
      assert multiset(s) == multiset{x} + multiset(s - {x});
      [x] + IdsOf(s - {x})
  }

  lemma DeviceListingExists(devices: map<string, DeviceRow>)
    ensures exists ids :: IsDeviceListing(devices, ids)
  {
    var key := (id: string) => if id in devices then devices[id].updatedAt else 0;
    var unsorted := IdsOf(devices.Keys);
    var ids := SortDesc(unsorted, key);
    SortDescProps(unsorted, key);
    forall i | 0 <= i < |ids| ensures ids[i] in devices {
      assert ids[i] in multiset(unsorted);
    }
    assert IsDeviceListing(devices, ids);
  }

  // ---------------------------------------------------------------------
  // The history queries
  // ---------------------------------------------------------------------

  /** `WHERE device_id = :d` over the telemetry history. */
  function TelemetryOf(rows: seq<TelemetryRow>, device: string): (r: seq<TelemetryRow>)
    ensures forall x :: x in r <==> x in rows && x.deviceId == device
  {
    if rows == [] then []
    else (if rows[0].deviceId == device then [rows[0]] else []) + TelemetryOf(rows[1..], device)
  }

  /** `WHERE device_id = :d` over the event history. */
  function EventsOf(rows: seq<EventRow>, device: string): (r: seq<EventRow>)
    ensures forall x :: x in r <==> x in rows && x.deviceId == device
  {
    if rows == [] then []
    else (if rows[0].deviceId == device then [rows[0]] else []) + EventsOf(rows[1..], device)
  }

  function TelemetryTs(r: TelemetryRow): int { r.ts }

  function EventTs(r: EventRow): int { r.ts }

  predicate NewestFirst<T>(rows: seq<T>, key: T -> int)
  {
    forall i, j :: 0 <= i < j < |rows| ==> key(rows[i]) >= key(rows[j])
  }

  /** What `ORDER BY ts DESC LIMIT n` may return from `all`: n rows (or
      all of them), newest first, taken from `all`, and no row left out
      is newer than a row returned. Rows with equal ts may come in any
      order. */
  predicate IsRecentFetch<T(==)>(all: seq<T>, fetched: seq<T>, key: T -> int, n: nat)
  {
    && NewestFirst(fetched, key)
    && multiset(fetched) <= multiset(all)
    && |fetched| == Min(n, |all|)
    && (forall x, y :: x in multiset(all) - multiset(fetched) && y in fetched ==> key(x) <= key(y))
  }

  /** One step of a stable descending insertion sort. */
  function InsertDesc<T>(x: T, sorted: seq<T>, key: T -> int): seq<T>
  {
    if sorted == [] || key(sorted[0]) < key(x) then [x] + sorted
    else [sorted[0]] + InsertDesc(x, sorted[1..], key)
  }

  /** The rows sorted newest first; rows with equal keys come latest
      inserted first, as a backward scan of the (device_id, ts) index
      returns them. */
  function SortDesc<T>(rows: seq<T>, key: T -> int): seq<T>
  {
    if rows == [] then [] else InsertDesc(rows[0], SortDesc(rows[1..], key), key)
  }

  /** No row of s is newer than b. */
  predicate AtMost<T>(s: seq<T>, key: T -> int, b: int)
  {
    forall i :: 0 <= i < |s| ==> key(s[i]) <= b
  }

  lemma {:induction false} InsertDescAtMost<T>(x: T, s: seq<T>, key: T -> int, b: int)
    requires AtMost(s, key, b) && key(x) <= b
    ensures AtMost(InsertDesc(x, s, key), key, b)
  {
    if s != [] && key(s[0]) >= key(x) {
      var tail := s[1..];
      assert AtMost(tail, key, b) by {
        forall i | 0 <= i < |tail| ensures key(tail[i]) <= b {
          assert tail[i] == s[i + 1];
        }
      }
      InsertDescAtMost(x, tail, key, b);
    }
  }

  lemma {:induction false} InsertDescSorted<T>(x: T, s: seq<T>, key: T -> int)
    requires NewestFirst(s, key)
    ensures NewestFirst(InsertDesc(x, s, key), key)
  {
    if s == [] || key(s[0]) < key(x) {
      var r := [x] + s;
      forall i, j | 0 <= i < j < |r| ensures key(r[i]) >= key(r[j]) {
        assert r[j] == s[j - 1];
        if i > 0 {
          assert r[i] == s[i - 1];
        } else if j > 1 {
          assert key(s[0]) >= key(s[j - 1]);
        }
      }
    } else {
      var tail := s[1..];
      assert NewestFirst(tail, key) by {
        forall i, j | 0 <= i < j < |tail| ensures key(tail[i]) >= key(tail[j]) {
          assert tail[i] == s[i + 1] && tail[j] == s[j + 1];
        }
      }
      assert AtMost(tail, key, key(s[0])) by {
        forall i | 0 <= i < |tail| ensures key(tail[i]) <= key(s[0]) {
          assert tail[i] == s[i + 1];
        }
      }
      InsertDescSorted(x, tail, key);
      InsertDescAtMost(x, tail, key, key(s[0]));
      var t := InsertDesc(x, tail, key);
      var r := [s[0]] + t;
      forall i, j | 0 <= i < j < |r| ensures key(r[i]) >= key(r[j]) {
        assert r[j] == t[j - 1];
        if i > 0 {
          assert r[i] == t[i - 1];
        }
      }
    }
  }

  lemma {:induction false} InsertDescPerm<T>(x: T, s: seq<T>, key: T -> int)
    ensures multiset(InsertDesc(x, s, key)) == multiset(s) + multiset{x}
  {
    if s == [] || key(s[0]) < key(x) {
      assert multiset([x] + s) == multiset{x} + multiset(s);
    } else {
      var t := InsertDesc(x, s[1..], key);
      InsertDescPerm(x, s[1..], key);
      assert s == [s[0]] + s[1..];
      assert multiset(s) == multiset{s[0]} + multiset(s[1..]);
      assert multiset([s[0]] + t) == multiset{s[0]} + multiset(t);
    }
  }

  lemma {:induction false} SortDescSorted<T>(rows: seq<T>, key: T -> int)
    ensures NewestFirst(SortDesc(rows, key), key)
  {
    if rows != [] {
      SortDescSorted(rows[1..], key);
      InsertDescSorted(rows[0], SortDesc(rows[1..], key), key);
    }
  }

  lemma {:induction false} SortDescPerm<T>(rows: seq<T>, key: T -> int)
    ensures multiset(SortDesc(rows, key)) == multiset(rows)
  {
    if rows != [] {
      SortDescPerm(rows[1..], key);
      InsertDescPerm(rows[0], SortDesc(rows[1..], key), key);
      assert rows == [rows[0]] + rows[1..];
      assert multiset(rows) == multiset{rows[0]} + multiset(rows[1..]);
    }
  }

  /** The insertion sort orders newest first and keeps every row. */
  lemma SortDescProps<T>(rows: seq<T>, key: T -> int)
    ensures NewestFirst(SortDesc(rows, key), key)
    ensures multiset(SortDesc(rows, key)) == multiset(rows)
    ensures |SortDesc(rows, key)| == |rows|
  {
    SortDescSorted(rows, key);
    SortDescPerm(rows, key);
    assert |multiset(SortDesc(rows, key))| == |multiset(rows)|;
  }

  /** The first n rows of the sorted history: one result set the query may return. */
  function Recent<T>(all: seq<T>, key: T -> int, n: nat): seq<T>
  {
    var s := SortDesc(all, key);
    s[..Min(n, |s|)]
  }

  /** Cutting a newest-first sequence: the head stays newest first and
      nothing in the tail is newer than anything in the head. */
  lemma SplitNewestFirst<T>(s: seq<T>, m: nat, key: T -> int)
    requires NewestFirst(s, key) && m <= |s|
    ensures NewestFirst(s[..m], key)
    ensures forall x, y :: x in s[m..] && y in s[..m] ==> key(x) <= key(y)
  {
    var p := s[..m];
    forall i, j | 0 <= i < j < |p| ensures key(p[i]) >= key(p[j]) {
      assert p[i] == s[i] && p[j] == s[j];
    }
    forall x, y | x in s[m..] && y in p ensures key(x) <= key(y) {
      var jx :| 0 <= jx < |s| - m && s[m..][jx] == x;
      var iy :| 0 <= iy < |p| && p[iy] == y;
      assert s[m + jx] == x && s[iy] == y;
    }
  }

  /** The description of `ORDER BY ts DESC LIMIT n` can always be met. */
  lemma RecentIsRecentFetch<T>(all: seq<T>, key: T -> int, n: nat)
    ensures IsRecentFetch(all, Recent(all, key, n), key, n)
  {
    var s := SortDesc(all, key);
    SortDescProps(all, key);
    var m := Min(n, |s|);
    PrefixRemainder(all, s, m);
    SplitNewestFirst(s, m, key);
    forall x, y | x in multiset(all) - multiset(s[..m]) && y in s[..m] ensures key(x) <= key(y) {
      assert x in multiset(s[m..]);
    }
  }

  /** What a prefix of a permutation of `all` leaves of `all` is the rest
      of that permutation. */
  lemma PrefixRemainder<T>(all: seq<T>, s: seq<T>, m: nat)
    requires multiset(s) == multiset(all) && m <= |s|
    ensures multiset(s[..m]) <= multiset(all)
    ensures multiset(all) - multiset(s[..m]) == multiset(s[m..])
  {
    assert s == s[..m] + s[m..];
    assert multiset(s) == multiset(s[..m]) + multiset(s[m..]);
  }

  /** The result sets of one request may be returned by the database. */
  predicate FetchedFor(db: Tables, device: string, telLimit: nat, evtLimit: nat, f: Fetched)
  {
    && IsDeviceListing(db.devices, f.deviceIds)
    && IsRecentFetch(TelemetryOf(db.telemetry, device), f.telemetry, TelemetryTs, telLimit)
    && IsRecentFetch(EventsOf(db.events, device), f.events, EventTs, evtLimit)
  }

  lemma FetchExists(db: Tables, device: string, telLimit: nat, evtLimit: nat)
    ensures exists f :: FetchedFor(db, device, telLimit, evtLimit, f)
  {
    DeviceListingExists(db.devices);
    var ids :| IsDeviceListing(db.devices, ids);
    RecentIsRecentFetch(TelemetryOf(db.telemetry, device), TelemetryTs, telLimit);
    RecentIsRecentFetch(EventsOf(db.events, device), EventTs, evtLimit);
    var f := Fetched(ids, Recent(TelemetryOf(db.telemetry, device), TelemetryTs, telLimit),
                     Recent(EventsOf(db.events, device), EventTs, evtLimit));
    assert FetchedFor(db, device, telLimit, evtLimit, f);
  }

  // ---------------------------------------------------------------------
  // Shaping the history answer
  // ---------------------------------------------------------------------

  function Columns(r: TelemetryRow): TelemetryOut
  {
    TelemetryOut(r.ts, r.cpuTemp, r.uptime, r.diskUsedPct, r.ip, r.payload)
  }

  /** `array_reverse` of the fetched telemetry. */
  function TelemetryAnswer(fetched: seq<TelemetryRow>): (r: seq<TelemetryOut>)
    ensures |r| == |fetched|
    ensures forall i :: 0 <= i < |r| ==> r[i] == Columns(fetched[|fetched| - 1 - i])
  {
    if fetched == [] then [] else TelemetryAnswer(fetched[1..]) + [Columns(fetched[0])]
  }

  /** An event row as fetchAll returns it: the JSON columns still text. */
  function FetchedEvent(e: EventRow): (r: EventOut)
    ensures r.labels.Raw? && r.payload.Raw?
  {
    EventOut(e.ts, e.faces, Raw(e.labels), e.snapshotUrl, e.snapshotPath, Raw(Some(e.payload)))
  }

  predicate AsFetched(e: EventOut)
  {
    e.labels.Raw? && e.payload.Raw?
  }

  /** The body of the by-reference foreach: labels decoded or [], payload
      decoded by the endpoint's decoder. */
  function ShapeEvent(e: EventOut, endpoint: Endpoint): (r: EventOut)
    requires AsFetched(e)
  {
    e.(labels := Decoded(LabelsOut(e.labels.text)), payload := Decoded(DecodeColumn(endpoint, e.payload.text)))
  }

  /** `foreach ($evt as &$e) { … }`: every row rewritten in place. */
  method ShapeEvents(evt: array<EventOut>, endpoint: Endpoint)
    requires forall i :: 0 <= i < evt.Length ==> AsFetched(evt[i])
    modifies evt
    ensures forall i :: 0 <= i < evt.Length ==> evt[i] == ShapeEvent(old(evt[i]), endpoint)
  {
    for i := 0 to evt.Length
      invariant forall k :: 0 <= k < i ==> evt[k] == ShapeEvent(old(evt[k]), endpoint)
      invariant forall k :: i <= k < evt.Length ==> evt[k] == old(evt[k])
    {
      var e := evt[i];
      evt[i] := e.(labels := Decoded(LabelsOut(e.labels.text)),
                   payload := Decoded(DecodeColumn(endpoint, e.payload.text)));
    }
  }

  /** The events of the `history` answer, in fetch order. */
  function EventsAnswer(fetched: seq<EventRow>, endpoint: Endpoint): (r: seq<EventOut>)
    ensures |r| == |fetched|
    ensures forall i :: 0 <= i < |r| ==>
      && r[i].ts == fetched[i].ts && r[i].faces == fetched[i].faces
      && r[i].labels == Decoded(LabelsOut(fetched[i].labels))
      && r[i].payload == Decoded(DecodeColumn(endpoint, Some(fetched[i].payload)))
      && r[i].snapshotUrl == fetched[i].snapshotUrl && r[i].snapshotPath == fetched[i].snapshotPath
  {
    seq(|fetched|, i requires 0 <= i < |fetched| => ShapeEvent(FetchedEvent(fetched[i]), endpoint))
  }

  /** fetchAll followed by the by-reference rewrite. */
  method ShapeFetchedEvents(fetched: seq<EventRow>, endpoint: Endpoint) returns (events: seq<EventOut>)
    ensures events == EventsAnswer(fetched, endpoint)
  {
    var evt := new EventOut[|fetched|](i requires 0 <= i < |fetched| => FetchedEvent(fetched[i]));
    ShapeEvents(evt, endpoint);
    events := evt[..];
  }

  /** The reversal turns newest first into oldest first. */
  lemma TelemetryAnswerAscending(fetched: seq<TelemetryRow>)
    requires NewestFirst(fetched, TelemetryTs)
    ensures forall i, j :: 0 <= i < j < |fetched| ==> TelemetryAnswer(fetched)[i].ts <= TelemetryAnswer(fetched)[j].ts
  {
    var out := TelemetryAnswer(fetched);
    var m := |fetched|;
    forall i, j | 0 <= i < j < m ensures out[i].ts <= out[j].ts {
      assert TelemetryTs(fetched[m - 1 - j]) >= TelemetryTs(fetched[m - 1 - i]);
    }
  }

  /** Every answered reading is a stored reading of the device. */
  lemma TelemetryAnswerRows(all: seq<TelemetryRow>, fetched: seq<TelemetryRow>)
    requires multiset(fetched) <= multiset(all)
    ensures forall i :: 0 <= i < |fetched| ==> exists x :: x in all && TelemetryAnswer(fetched)[i] == Columns(x)
  {
    var out := TelemetryAnswer(fetched);
    var m := |fetched|;
    forall i | 0 <= i < m ensures exists x :: x in all && out[i] == Columns(x) {
      var x := fetched[m - 1 - i];
      assert x in multiset(fetched);
      assert x in multiset(all);
      assert x in all && out[i] == Columns(x);
    }
  }

  /** No reading left out is newer than an answered one. */
  lemma TelemetryAnswerNewest(all: seq<TelemetryRow>, fetched: seq<TelemetryRow>)
    requires forall x, y :: x in multiset(all) - multiset(fetched) && y in fetched ==> TelemetryTs(x) <= TelemetryTs(y)
    ensures forall x, i :: x in multiset(all) - multiset(fetched) && 0 <= i < |fetched| ==>
      x.ts <= TelemetryAnswer(fetched)[i].ts
  {
    var out := TelemetryAnswer(fetched);
    var m := |fetched|;
    forall x, i | x in multiset(all) - multiset(fetched) && 0 <= i < m ensures x.ts <= out[i].ts {
      var y := fetched[m - 1 - i];
      assert y in fetched;
      assert TelemetryTs(x) <= TelemetryTs(y);
    }
  }

  /** out answers for the newest n rows of all, oldest first: n rows (or
      all of them), ascending by ts, one for each fetched row of all in
      reverse fetch order, and no row that the fetch left out newer than
      an answered one. */
  predicate IsTelemetryWindow(out: seq<TelemetryOut>, all: seq<TelemetryRow>, fetched: seq<TelemetryRow>, n: nat)
  {
    && |out| == Min(n, |all|)
    && multiset(fetched) <= multiset(all)
    && |out| == |fetched|
    && (forall i :: 0 <= i < |out| ==> out[i] == Columns(fetched[|fetched| - 1 - i]))
    && (forall i, j :: 0 <= i < j < |out| ==> out[i].ts <= out[j].ts)
    && (forall i :: 0 <= i < |out| ==> exists x :: x in all && out[i] == Columns(x))
    && (forall x, i :: x in multiset(all) - multiset(fetched) && 0 <= i < |out| ==> x.ts <= out[i].ts)
  }

  /** out answers for the newest n events of all, newest first: n events
      (or all of them), descending by ts, one shaped event for each
      fetched event of all in fetch order, and no event that the fetch
      left out newer than an answered one. */
  predicate IsEventsWindow(out: seq<EventOut>, all: seq<EventRow>, fetched: seq<EventRow>, n: nat, endpoint: Endpoint)
  {
    && |out| == Min(n, |all|)
    && multiset(fetched) <= multiset(all)
    && |out| == |fetched|
    && (forall i :: 0 <= i < |out| ==> out[i] == ShapeEvent(FetchedEvent(fetched[i]), endpoint))
    && (forall i, j :: 0 <= i < j < |out| ==> out[i].ts >= out[j].ts)
    && (forall i :: 0 <= i < |out| ==> exists x :: x in all && out[i] == ShapeEvent(FetchedEvent(x), endpoint))
    && (forall x, i :: x in multiset(all) - multiset(fetched) && 0 <= i < |out| ==> x.ts <= out[i].ts)
  }

  /** The telemetry answer: the newest n rows of the device, oldest first. */
  lemma TelemetryWindow(all: seq<TelemetryRow>, fetched: seq<TelemetryRow>, n: nat)
    requires IsRecentFetch(all, fetched, TelemetryTs, n)
    ensures |TelemetryAnswer(fetched)| == Min(n, |all|)
    ensures forall i, j :: 0 <= i < j < |fetched| ==> TelemetryAnswer(fetched)[i].ts <= TelemetryAnswer(fetched)[j].ts
    ensures forall i :: 0 <= i < |fetched| ==> exists x :: x in all && TelemetryAnswer(fetched)[i] == Columns(x)
    ensures forall x, i :: x in multiset(all) - multiset(fetched) && 0 <= i < |fetched| ==>
      x.ts <= TelemetryAnswer(fetched)[i].ts
    ensures IsTelemetryWindow(TelemetryAnswer(fetched), all, fetched, n)
  {
    TelemetryAnswerAscending(fetched);
    TelemetryAnswerRows(all, fetched);
    TelemetryAnswerNewest(all, fetched);
    assert IsTelemetryWindow(TelemetryAnswer(fetched), all, fetched, n);
  }

  /** The events answer: the newest n events of the device, newest first. */
  lemma EventsWindow(all: seq<EventRow>, fetched: seq<EventRow>, n: nat, endpoint: Endpoint)
    requires IsRecentFetch(all, fetched, EventTs, n)
    ensures |EventsAnswer(fetched, endpoint)| == Min(n, |all|)
    ensures forall i, j :: 0 <= i < j < |fetched| ==>
      EventsAnswer(fetched, endpoint)[i].ts >= EventsAnswer(fetched, endpoint)[j].ts
    ensures forall i :: 0 <= i < |fetched| ==>
      exists x :: x in all && EventsAnswer(fetched, endpoint)[i] == ShapeEvent(FetchedEvent(x), endpoint)
    ensures forall x, i :: x in multiset(all) - multiset(fetched) && 0 <= i < |fetched| ==>
      x.ts <= EventsAnswer(fetched, endpoint)[i].ts
    ensures IsEventsWindow(EventsAnswer(fetched, endpoint), all, fetched, n, endpoint)
  {
    var out := EventsAnswer(fetched, endpoint);
    forall i | 0 <= i < |fetched| ensures exists x :: x in all && out[i] == ShapeEvent(FetchedEvent(x), endpoint) {
      assert fetched[i] in multiset(fetched);
      assert fetched[i] in multiset(all);
      assert fetched[i] in all;
    }
    forall i, j | 0 <= i < j < |fetched| ensures out[i].ts >= out[j].ts {
      assert EventTs(fetched[i]) >= EventTs(fetched[j]);
    }
    forall x, i | x in multiset(all) - multiset(fetched) && 0 <= i < |fetched| ensures x.ts <= out[i].ts {
      assert fetched[i] in fetched;
      assert EventTs(x) <= EventTs(fetched[i]);
    }
    assert IsEventsWindow(out, all, fetched, n, endpoint);
  }

  /** The fetch fixes the answer: two telemetry windows, or two event
      windows, over the same fetch are the same sequence, so no answer
      repeats one row in place of another. */
  lemma WindowsDetermined(all: seq<TelemetryRow>, fetched: seq<TelemetryRow>, n: nat,
                          out1: seq<TelemetryOut>, out2: seq<TelemetryOut>,
                          evAll: seq<EventRow>, evFetched: seq<EventRow>, m: nat, endpoint: Endpoint,
                          ev1: seq<EventOut>, ev2: seq<EventOut>)
    requires IsTelemetryWindow(out1, all, fetched, n) && IsTelemetryWindow(out2, all, fetched, n)
    requires IsEventsWindow(ev1, evAll, evFetched, m, endpoint) && IsEventsWindow(ev2, evAll, evFetched, m, endpoint)
    ensures out1 == out2 && out1 == TelemetryAnswer(fetched)
    ensures ev1 == ev2 && ev1 == EventsAnswer(evFetched, endpoint)
  {
  }

  /** Labels of a row the worker wrote: the published array, else []. */
  lemma WorkerLabelsShaped(device: string, data: Json, ts: Timestamp, endpoint: Endpoint)
    ensures var l := ShapeEvent(FetchedEvent(EventRowOf(device, data, ts)), endpoint).labels;
      l == Decoded(if PhpLookup(data, "labels").Some? && IsPhpArray(data.fields["labels"])
                   then data.fields["labels"] else JArr([]))
  {
  }

  lemma {:induction false} LastTelemetryIsArray(rows: seq<TelemetryRow>, id: string)
    requires forall i :: 0 <= i < |rows| ==> IsPhpArray(rows[i].payload)
    ensures LastTelemetry(rows, id).Some? ==> IsPhpArray(LastTelemetry(rows, id).value)
  {
    if rows != [] && rows[|rows| - 1].deviceId != id {
      LastTelemetryIsArray(rows[..|rows| - 1], id);
    }
  }

  lemma {:induction false} LastEventIsArray(rows: seq<EventRow>, id: string)
    requires forall i :: 0 <= i < |rows| ==> IsPhpArray(rows[i].payload)
    ensures LastEvent(rows, id).Some? ==> IsPhpArray(LastEvent(rows, id).value)
  {
    if rows != [] && rows[|rows| - 1].deviceId != id {
      LastEventIsArray(rows[..|rows| - 1], id);
    }
  }

  /** On tables the worker keeps valid both endpoints shape devices and
      events identically, and no event payload reads back as null. */
  lemma EndpointsAgreeOnWorkerData(db: Tables, ids: seq<string>, fetched: seq<EventRow>)
    requires Valid(db)
    requires forall i :: 0 <= i < |ids| ==> ids[i] in db.devices
    requires forall i :: 0 <= i < |fetched| ==> fetched[i] in db.events
    ensures DeviceEntries(ids, db.devices, Admin) == DeviceEntries(ids, db.devices, Page)
    ensures EventsAnswer(fetched, Admin) == EventsAnswer(fetched, Page)
    ensures forall i :: 0 <= i < |fetched| ==> EventsAnswer(fetched, Admin)[i].payload == Decoded(fetched[i].payload)
  {
    forall i | 0 <= i < |ids|
      ensures DeviceEntry(ids[i], db.devices[ids[i]], Admin) == DeviceEntry(ids[i], db.devices[ids[i]], Page)
    {
      LastTelemetryIsArray(db.telemetry, ids[i]);
      LastEventIsArray(db.events, ids[i]);
    }
    forall i | 0 <= i < |fetched|
      ensures ShapeEvent(FetchedEvent(fetched[i]), Admin) == ShapeEvent(FetchedEvent(fetched[i]), Page)
      ensures ShapeEvent(FetchedEvent(fetched[i]), Admin).payload == Decoded(fetched[i].payload)
    {
      assert fetched[i] in db.events;
      var j :| 0 <= j < |db.events| && db.events[j] == fetched[i];
      assert IsPhpArray(fetched[i].payload);
    }
  }

  // ---------------------------------------------------------------------
  // The two dispatchers
  // ---------------------------------------------------------------------

  /** admin/controllers/dashboard/api.php, after the login check. */
  function AdminResponse(q: Query, config: Config, db: Tables, f: Fetched): (r: Response)
    requires forall i :: 0 <= i < |f.deviceIds| ==> f.deviceIds[i] in db.devices
    ensures r == Failure(400, "api required") <==> Param(q, "api") == ""
    ensures r == Failure(400, "device_id required") <==> Param(q, "api") == "history" && Param(q, "device_id") == ""
    ensures r == Failure(404, "unknown api") <==> Param(q, "api") !in {"", "devices", "history"}
    ensures r.DeviceList? <==> Param(q, "api") == "devices"
    ensures r.History? <==> Param(q, "api") == "history" && Param(q, "device_id") != ""
  {
    var api := Param(q, "api");
    if api == "" then Failure(400, "api required")
    else if api == "devices" then DeviceList(DeviceEntries(f.deviceIds, db.devices, Admin))
    else if api == "history" then
      if Param(q, "device_id") == "" then Failure(400, "device_id required")
      else History(TelemetryAnswer(f.telemetry), EventsAnswer(f.events, Admin))
    else Failure(404, "unknown api")
  }

  /** The `?api=` branch of dashboard.php; None when `api` is absent and
      the page itself is rendered. */
  function PageResponse(q: Query, db: Tables, f: Fetched): (r: Option<Response>)
    requires forall i :: 0 <= i < |f.deviceIds| ==> f.deviceIds[i] in db.devices
    ensures r.None? <==> "api" !in q
    ensures r == Some(Failure(404, "unknown api")) <==> "api" in q && q["api"] !in {"devices", "history"}
    ensures r == Some(Failure(400, "device_id required")) <==>
      "api" in q && q["api"] == "history" && Param(q, "device_id") == ""
    ensures r.Some? && r.value.DeviceList? <==> "api" in q && q["api"] == "devices"
    ensures r.Some? && r.value.History? <==> "api" in q && q["api"] == "history" && Param(q, "device_id") != ""
  {
    if "api" !in q then None
    else
      var api := q["api"];
      if api == "devices" then Some(DeviceList(DeviceEntries(f.deviceIds, db.devices, Page)))
      else if api == "history" then
        if Param(q, "device_id") == "" then Some(Failure(400, "device_id required"))
        else Some(History(TelemetryAnswer(f.telemetry), EventsAnswer(f.events, Page)))
      else Some(Failure(404, "unknown api"))
  }

  /** An empty `api`: the admin endpoint answers 400, the page 404. */
  lemma EmptyApiAnswers(config: Config, db: Tables, f: Fetched)
    requires forall i :: 0 <= i < |f.deviceIds| ==> f.deviceIds[i] in db.devices
    ensures AdminResponse(map["api" := ""], config, db, f) == Failure(400, "api required")
    ensures PageResponse(map["api" := ""], db, f) == Some(Failure(404, "unknown api"))
    ensures AdminResponse(map[], config, db, f) == Failure(400, "api required")
    ensures PageResponse(map[], db, f) == None
  {
  }

  /** The admin `devices` answer: every device once, online as 0/1,
      latest update first. */
  lemma AdminDevices(q: Query, config: Config, db: Tables, f: Fetched)
    requires Param(q, "api") == "devices"
    requires IsDeviceListing(db.devices, f.deviceIds)
    ensures AdminResponse(q, config, db, f).DeviceList?
    ensures |AdminResponse(q, config, db, f).devices| == |db.devices|
    ensures multiset(EntryIds(AdminResponse(q, config, db, f).devices)) == multiset(db.devices.Keys)
    ensures forall i, j :: 0 <= i < j < |db.devices| ==>
      db.devices[AdminResponse(q, config, db, f).devices[i].deviceId].updatedAt
        >= db.devices[AdminResponse(q, config, db, f).devices[j].deviceId].updatedAt
  {
    DeviceEntriesListing(f.deviceIds, db.devices, Admin);
  }

  /** The admin `history` answer: telemetry is the newest tel_limit rows
      of the device oldest first, events the newest evt_limit events of
      the device newest first, both within the clamped limits. */
  lemma AdminHistory(q: Query, config: Config, db: Tables, f: Fetched)
    requires Param(q, "api") == "history" && Param(q, "device_id") != ""
    requires FetchedFor(db, q["device_id"], ApiTelLimit(q, config), ApiEvtLimit(q, config), f)
    ensures var r := AdminResponse(q, config, db, f);
      && r.History?
      && IsTelemetryWindow(r.telemetry, TelemetryOf(db.telemetry, q["device_id"]), f.telemetry, ApiTelLimit(q, config))
      && |r.telemetry| <= TelLimitMax
      && IsEventsWindow(r.events, EventsOf(db.events, q["device_id"]), f.events, ApiEvtLimit(q, config), Admin)
      && |r.events| <= EvtLimitMax
  {
    assert AdminResponse(q, config, db, f) == History(TelemetryAnswer(f.telemetry), EventsAnswer(f.events, Admin));
    TelemetryWindow(TelemetryOf(db.telemetry, q["device_id"]), f.telemetry, ApiTelLimit(q, config));
    EventsWindow(EventsOf(db.events, q["device_id"]), f.events, ApiEvtLimit(q, config), Admin);
  }

  /** The page's `history` answer: the same windows, with limits of at
      least 10 and no cap. */
  lemma PageHistory(q: Query, db: Tables, f: Fetched)
    requires "api" in q && q["api"] == "history" && Param(q, "device_id") != ""
    requires FetchedFor(db, q["device_id"], PageTelLimit(q), PageEvtLimit(q), f)
    ensures var r := PageResponse(q, db, f);
      && r.Some? && r.value.History?
      && IsTelemetryWindow(r.value.telemetry, TelemetryOf(db.telemetry, q["device_id"]), f.telemetry, PageTelLimit(q))
      && IsEventsWindow(r.value.events, EventsOf(db.events, q["device_id"]), f.events, PageEvtLimit(q), Page)
  {
    TelemetryWindow(TelemetryOf(db.telemetry, q["device_id"]), f.telemetry, PageTelLimit(q));
    EventsWindow(EventsOf(db.events, q["device_id"]), f.events, PageEvtLimit(q), Page);
  }
}
