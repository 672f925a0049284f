/** The ingestion worker: field extraction from a decoded MQTT body, the
    device upsert with COALESCE, the online update, the history inserts,
    and the transaction that brackets a telemetry or event write.

    Time is a number of whole seconds (the DATETIME columns keep seconds);
    `now` is the processing time and `parseIso` stands for the
    DateTimeImmutable parse of a `ts` string (None when it throws). */
module Ingest {
  import Text
  import Topic
  import opened JsonValue

  type Timestamp = int

  // ---------------------------------------------------------------------
  // Rows
  // ---------------------------------------------------------------------

  /** A row of iot_devices (device_id is the map key). `ip` is what PDO
      bound: the string cast of the body's `ip`. */
  datatype DeviceRow = DeviceRow(
    online: bool,
    lastSeen: Timestamp,
    ip: Option<string>,
    lastTelemetry: Option<Json>,
    lastEvent: Option<Json>,
    updatedAt: Timestamp)

  /** A row of iot_telemetry. The FLOAT columns keep the raw JSON value
      whose float cast is not modelled. */
  datatype TelemetryRow = TelemetryRow(
    deviceId: string,
    ts: Timestamp,
    ip: Option<string>,
    uptime: Option<int>,
    cpuTemp: Option<Json>,
    diskUsedPct: Option<Json>,
    payload: Json)

  /** A row of iot_events. */
  datatype EventRow = EventRow(
    deviceId: string,
    ts: Timestamp,
    faces: Option<int>,
    labels: Option<Json>,
    snapshotUrl: Option<string>,
    snapshotPath: Option<string>,
    payload: Json)

  /** The three tables, history in insertion (auto-increment) order. */
  datatype Tables = Tables(devices: map<string, DeviceRow>, telemetry: seq<TelemetryRow>, events: seq<EventRow>)

  const Empty: Tables := Tables(map[], [], [])

  // ---------------------------------------------------------------------
  // Field extraction
  // ---------------------------------------------------------------------

  /** safe_json_decode: a body that is not a JSON array or object (or not
      JSON at all, None) becomes the empty array and is still stored. */
  function DecodeBody(decoded: Option<Json>): (d: Json)
    ensures IsPhpArray(d)
    ensures decoded.Some? && IsPhpArray(decoded.value) ==> d == decoded.value
    ensures !(decoded.Some? && IsPhpArray(decoded.value)) ==> d == JArr([])
  {
    if decoded.Some? && IsPhpArray(decoded.value) then decoded.value else JArr([])
  }

  datatype TsOutcome = At(t: Timestamp) | TypeError

  /** `iso_to_mysql($data['ts'] ?? null)` under strict_types: a missing,
      empty or "0" ts and an unparseable one give `now`; a ts that is
      present but not a string is a TypeError raised before any write. */
  function MessageTime(data: Json, now: Timestamp, parseIso: string -> Option<Timestamp>): (r: TsOutcome)
    ensures PhpLookup(data, "ts").None? ==> r == At(now)
    ensures r.TypeError? <==> PhpLookup(data, "ts").Some? && !PhpLookup(data, "ts").value.JStr?
    ensures r.At? && r.t != now ==> data.fields["ts"].JStr? && parseIso(data.fields["ts"].s) == Some(r.t)
  {
    match PhpLookup(data, "ts")
    case None => At(now)
    case Some(v) =>
      if !v.JStr? then TypeError
      else if v.s == "" || v.s == "0" then At(now)
      else
        match parseIso(v.s)
        case None => At(now)
        case Some(t) => At(t)
  }

  /** `$data['ip'] ?? null` as PDO binds it. */
  function IpOf(data: Json): (r: Option<string>)
    ensures r.Some? <==> PhpLookup(data, "ip").Some?
  {
    match PhpLookup(data, "ip")
    case None => None
    case Some(v) => Some(PhpStringCast(v))
  }

  /** `isset($data[k]) ? (int) $data[k] : null`. */
  function OptIntField(data: Json, key: string): (r: Option<int>)
    ensures r.Some? <==> PhpLookup(data, key).Some?
  {
    match PhpLookup(data, key)
    case None => None
    case Some(v) => Some(PhpIntCast(v))
  }

  /** A count sent as text with an exponent is cast in full: a faces field
      of "1e3" is stored as 1000. */
  lemma OptIntFieldReadsExponent()
    ensures OptIntField(JObj(map["faces" := JStr("1e3")]), "faces") == Some(1000)
  {
    Text.PhpStringToIntReadsExponent();
  }

  /** `isset($data[k]) ? (string) $data[k] : null`. */
  function OptStringField(data: Json, key: string): (r: Option<string>)
    ensures r.Some? <==> PhpLookup(data, key).Some?
  {
    match PhpLookup(data, key)
    case None => None
    case Some(v) => Some(PhpStringCast(v))
  }

  /** disk_used_pct is set only when `disk` is an array holding `used_pct`. */
  function DiskUsedPct(data: Json): (r: Option<Json>)
    ensures r.Some? <==> PhpLookup(data, "disk").Some? && IsPhpArray(data.fields["disk"])
                         && PhpLookup(data.fields["disk"], "used_pct").Some?
  {
    match PhpLookup(data, "disk")
    case None => None
    case Some(disk) => if IsPhpArray(disk) then PhpLookup(disk, "used_pct") else None
  }

  /** labels is stored only when it is an array. */
  function LabelsField(data: Json): (r: Option<Json>)
    ensures r.Some? <==> PhpLookup(data, "labels").Some? && IsPhpArray(data.fields["labels"])
    ensures r.Some? ==> IsPhpArray(r.value) && r.value == data.fields["labels"]
  {
    match PhpLookup(data, "labels")
    case None => None
    case Some(l) => if IsPhpArray(l) then Some(l) else None
  }

  /** The history row a telemetry body produces. */
  function TelemetryRowOf(device: string, data: Json, ts: Timestamp): (r: TelemetryRow)
    ensures r.deviceId == device && r.ts == ts && r.payload == data
    ensures r.uptime.Some? <==> PhpLookup(data, "uptime_s").Some?
    ensures r.cpuTemp.Some? <==> PhpLookup(data, "cpu_temp_c").Some?
    ensures r.ip == IpOf(data) && r.diskUsedPct == DiskUsedPct(data)
  {
    TelemetryRow(device, ts, IpOf(data), OptIntField(data, "uptime_s"), PhpLookup(data, "cpu_temp_c"),
      DiskUsedPct(data), data)
  }

  /** The history row an event body produces. */
  function EventRowOf(device: string, data: Json, ts: Timestamp): (r: EventRow)
    ensures r.deviceId == device && r.ts == ts && r.payload == data
    ensures r.faces.Some? <==> PhpLookup(data, "faces").Some?
    ensures r.snapshotUrl.Some? <==> PhpLookup(data, "snapshot_url").Some?
    ensures r.snapshotPath.Some? <==> PhpLookup(data, "snapshot_path").Some?
    ensures r.labels == LabelsField(data)
  {
    EventRow(device, ts, OptIntField(data, "faces"), LabelsField(data),
      OptStringField(data, "snapshot_url"), OptStringField(data, "snapshot_path"), data)
  }

  // ---------------------------------------------------------------------
  // The two device statements
  // ---------------------------------------------------------------------

  function Coalesce<T>(incoming: Option<T>, stored: Option<T>): (r: Option<T>)
    ensures incoming.Some? ==> r == incoming
    ensures incoming.None? ==> r == stored
  {
    if incoming.Some? then incoming else stored
  }

  /** updated_at (ON UPDATE CURRENT_TIMESTAMP) moves only when the
      statement changes some other column of an existing row. */
  function Touch(before: DeviceRow, after: DeviceRow, now: Timestamp): (r: DeviceRow)
    ensures r.(updatedAt := before.updatedAt) == after.(updatedAt := before.updatedAt)
    ensures r.updatedAt == (if after.(updatedAt := before.updatedAt) == before then before.updatedAt else now)
  {
    var a := after.(updatedAt := before.updatedAt);
    if a == before then before else a.(updatedAt := now)
  }

  /** st_upsert_device: INSERT … ON DUPLICATE KEY UPDATE with online and
      last_seen overwritten and ip / last_telemetry / last_event kept
      whenever the new value is null. */
  function UpsertDevice(devices: map<string, DeviceRow>, id: string, lastSeen: Timestamp, ip: Option<string>,
                        tel: Option<Json>, evt: Option<Json>, now: Timestamp): (r: map<string, DeviceRow>)
    ensures r.Keys == devices.Keys + {id}
    ensures forall k :: k in devices && k != id ==> r[k] == devices[k]
    ensures r[id].online && r[id].lastSeen == lastSeen
    ensures ip.Some? ==> r[id].ip == ip
    ensures tel.Some? ==> r[id].lastTelemetry == tel
    ensures evt.Some? ==> r[id].lastEvent == evt
    ensures id in devices && ip.None? ==> r[id].ip == devices[id].ip
    ensures id in devices && tel.None? ==> r[id].lastTelemetry == devices[id].lastTelemetry
    ensures id in devices && evt.None? ==> r[id].lastEvent == devices[id].lastEvent
    ensures id !in devices ==> r[id] == DeviceRow(true, lastSeen, ip, tel, evt, now)
    ensures id in devices && r[id].(updatedAt := devices[id].updatedAt) == devices[id] ==> r[id].updatedAt == devices[id].updatedAt
    ensures id in devices && r[id].(updatedAt := devices[id].updatedAt) != devices[id] ==> r[id].updatedAt == now
  {
    if id in devices then
      var prev := devices[id];
      devices[id := Touch(prev, DeviceRow(true, lastSeen, Coalesce(ip, prev.ip), Coalesce(tel, prev.lastTelemetry),
                                         Coalesce(evt, prev.lastEvent), prev.updatedAt), now)]
    else
      devices[id := DeviceRow(true, lastSeen, ip, tel, evt, now)]
  }

  /** st_update_online: only online and last_seen; a new row gets null ip,
      last_telemetry and last_event. */
  function UpdateOnline(devices: map<string, DeviceRow>, id: string, online: bool, now: Timestamp): (r: map<string, DeviceRow>)
    ensures r.Keys == devices.Keys + {id}
    ensures forall k :: k in devices && k != id ==> r[k] == devices[k]
    ensures r[id].online == online && r[id].lastSeen == now
    ensures id in devices ==> r[id].ip == devices[id].ip && r[id].lastTelemetry == devices[id].lastTelemetry
                              && r[id].lastEvent == devices[id].lastEvent
    ensures id !in devices ==> r[id] == DeviceRow(online, now, None, None, None, now)
    ensures id in devices && r[id].(updatedAt := devices[id].updatedAt) == devices[id] ==> r[id].updatedAt == devices[id].updatedAt
    ensures id in devices && r[id].(updatedAt := devices[id].updatedAt) != devices[id] ==> r[id].updatedAt == now
  {
    if id in devices then
      var prev := devices[id];
      devices[id := Touch(prev, prev.(online := online, lastSeen := now), now)]
    else
      devices[id := DeviceRow(online, now, None, None, None, now)]
  }

  /** `trim($message) === '1'`. */
  predicate OnlineFlag(message: string)
  {
    Text.Trim(message, Text.PhpWhitespace) == "1"
  }

  /** The upsert of a telemetry message. */
  function TelemetryUpsert(t: Tables, device: string, data: Json, ts: Timestamp, now: Timestamp): Tables
  {
    t.(devices := UpsertDevice(t.devices, device, ts, IpOf(data), Some(data), None, now))
  }

  /** The upsert of an event message. */
  function EventUpsert(t: Tables, device: string, data: Json, ts: Timestamp, now: Timestamp): Tables
  {
    t.(devices := UpsertDevice(t.devices, device, ts, IpOf(data), None, Some(data), now))
  }

  /** Both statements of a telemetry message. */
  function TelemetryWrite(t: Tables, device: string, data: Json, ts: Timestamp, now: Timestamp): (r: Tables)
    ensures r.telemetry == t.telemetry + [TelemetryRowOf(device, data, ts)]
    ensures r.events == t.events
    ensures r.devices == UpsertDevice(t.devices, device, ts, IpOf(data), Some(data), None, now)
  {
    var u := TelemetryUpsert(t, device, data, ts, now);
    u.(telemetry := u.telemetry + [TelemetryRowOf(device, data, ts)])
  }

  /** Both statements of an event message. */
  function EventWrite(t: Tables, device: string, data: Json, ts: Timestamp, now: Timestamp): (r: Tables)
    ensures r.events == t.events + [EventRowOf(device, data, ts)]
    ensures r.telemetry == t.telemetry
    ensures r.devices == UpsertDevice(t.devices, device, ts, IpOf(data), None, Some(data), now)
  {
    var u := EventUpsert(t, device, data, ts, now);
    u.(events := u.events + [EventRowOf(device, data, ts)])
  }

  // ---------------------------------------------------------------------
  // Messages and the worker's connection
  // ---------------------------------------------------------------------

  datatype Message =
    | TelemetryMsg(topic: string, body: Option<Json>)
    | EventMsg(topic: string, body: Option<Json>)
    | OnlineMsg(topic: string, text: string)

  /** Which statement the database rejects, if any (a value too long for
      its column, an INT out of range, a lost connection, …). */
  datatype StorageFault = NoFault | FailsAtFirst | FailsAtSecond

  datatype Env = Env(now: Timestamp, fault: StorageFault)

  datatype Outcome = Ignored | Stored | Raised

  /** What the worker's PDO connection sees (its own uncommitted writes
      included), what is committed (what the dashboards read), and
      whether a transaction is open. */
  datatype Conn = Conn(view: Tables, committed: Tables, txOpen: bool)

  /** The topic routes to the handler of `kind`. */
  predicate Routed(topic: string, kind: string)
  {
    Topic.ParseTopic(topic).0 != "" && Topic.ParseTopic(topic).1 == kind
  }

  /** The two history tables a data message can go to. */
  datatype Stream = TelemetryStream | EventStream

  /** The upsert statement of a data message. */
  function Upsert(s: Stream, t: Tables, device: string, data: Json, ts: Timestamp, now: Timestamp): Tables
  {
    match s
    case TelemetryStream => TelemetryUpsert(t, device, data, ts, now)
    case EventStream => EventUpsert(t, device, data, ts, now)
  }

  /** Both statements of a data message. */
  function Write(s: Stream, t: Tables, device: string, data: Json, ts: Timestamp, now: Timestamp): Tables
  {
    match s
    case TelemetryStream => TelemetryWrite(t, device, data, ts, now)
    case EventStream => EventWrite(t, device, data, ts, now)
  }

  /** A routed data message: the ts check, begin, the upsert, the insert,
      commit, and no rollBack anywhere. */
  function HandleData(c: Conn, s: Stream, device: string, data: Json, when: TsOutcome, env: Env): (r: (Conn, Outcome))
    ensures r.1 != Ignored
    ensures r.1 == Raised ==> r.0.committed == c.committed
    ensures r.1 == Stored ==> !c.txOpen && !r.0.txOpen && r.0.view == r.0.committed
  {
    if when.TypeError? then (c, Raised)
    else if c.txOpen then (c, Raised)
    else if env.fault == FailsAtFirst then (c.(txOpen := true), Raised)
    else if env.fault == FailsAtSecond then
      (c.(view := Upsert(s, c.view, device, data, when.t, env.now), txOpen := true), Raised)
    else
      var t := Write(s, c.view, device, data, when.t, env.now);
      (Conn(t, t, false), Stored)
  }

  /** One message through the handler as written. */
  function Deliver(c: Conn, m: Message, parseIso: string -> Option<Timestamp>, env: Env): (Conn, Outcome)
  {
    match m
    case TelemetryMsg(topic, body) =>
      if !Routed(topic, "telemetry") then (c, Ignored)
      else
        var data := DecodeBody(body);
        HandleData(c, TelemetryStream, Topic.ParseTopic(topic).0, data, MessageTime(data, env.now, parseIso), env)
    case EventMsg(topic, body) =>
      if !Routed(topic, "events") then (c, Ignored)
      else
        var data := DecodeBody(body);
        HandleData(c, EventStream, Topic.ParseTopic(topic).0, data, MessageTime(data, env.now, parseIso), env)
    case OnlineMsg(topic, text) =>
      if !Routed(topic, "online") then (c, Ignored)
      else if env.fault != NoFault then (c, Raised)
      else
        var device := Topic.ParseTopic(topic).0;
        var v := c.view.(devices := UpdateOnline(c.view.devices, device, OnlineFlag(text), env.now));
        (Conn(v, if c.txOpen then c.committed else v, c.txOpen), Stored)
  }

  /** A run of messages, each with its own time and fault. */
  function Run(c: Conn, ms: seq<(Message, Env)>, parseIso: string -> Option<Timestamp>): Conn
    decreases |ms|
  {
    if ms == [] then c else Run(Deliver(c, ms[0].0, parseIso, ms[0].1).0, ms[1..], parseIso)
  }

  /** The handler with the missing `catch { rollBack(); throw; }`: a raised
      handler leaves no transaction open and drops its uncommitted writes. */
  function DeliverWithRollback(c: Conn, m: Message, parseIso: string -> Option<Timestamp>, env: Env): (Conn, Outcome)
  {
    var r := Deliver(c, m, parseIso, env);
    if r.1 == Raised then (Conn(r.0.committed, r.0.committed, false), r.1) else r
  }

  function RunWithRollback(c: Conn, ms: seq<(Message, Env)>, parseIso: string -> Option<Timestamp>): Conn
    decreases |ms|
  {
    if ms == [] then c else RunWithRollback(DeliverWithRollback(c, ms[0].0, parseIso, ms[0].1).0, ms[1..], parseIso)
  }

  // ---------------------------------------------------------------------
  // The store invariant
  // ---------------------------------------------------------------------

  /** The payload of the device's most recent telemetry row, if any. */
  function LastTelemetry(rows: seq<TelemetryRow>, id: string): Option<Json>
  {
    if rows == [] then None
    else if rows[|rows| - 1].deviceId == id then Some(rows[|rows| - 1].payload)
    else LastTelemetry(rows[..|rows| - 1], id)
  }

  /** The payload of the device's most recent event row, if any. */
  function LastEvent(rows: seq<EventRow>, id: string): Option<Json>
  {
    if rows == [] then None
    else if rows[|rows| - 1].deviceId == id then Some(rows[|rows| - 1].payload)
    else LastEvent(rows[..|rows| - 1], id)
  }

  /** What the worker keeps true of the committed tables: every history row
      references a device (the foreign keys), no device id is empty or
      holds a slash, every stored payload is an array, and a device's
      last_telemetry / last_event is the payload of its latest history row. */
  predicate Valid(t: Tables)
  {
    && "" !in t.devices
    && (forall id :: id in t.devices ==> '/' !in id)
    && (forall i :: 0 <= i < |t.telemetry| ==> t.telemetry[i].deviceId in t.devices && IsPhpArray(t.telemetry[i].payload))
    && (forall i :: 0 <= i < |t.events| ==> t.events[i].deviceId in t.devices && IsPhpArray(t.events[i].payload))
    && (forall id :: id in t.devices ==> t.devices[id].lastTelemetry == LastTelemetry(t.telemetry, id))
    && (forall id :: id in t.devices ==> t.devices[id].lastEvent == LastEvent(t.events, id))
  }

  /** The connection's invariant: the committed tables are valid, and
      outside a transaction the connection sees exactly what is committed. */
  predicate ConnValid(c: Conn)
  {
    Valid(c.committed) && (!c.txOpen ==> c.view == c.committed)
  }

  lemma {:induction false} LastTelemetryOfUnknown(rows: seq<TelemetryRow>, devices: set<string>, id: string)
    requires forall i :: 0 <= i < |rows| ==> rows[i].deviceId in devices
    requires id !in devices
    ensures LastTelemetry(rows, id) == None
    decreases |rows|
  {
    if rows != [] {
      LastTelemetryOfUnknown(rows[..|rows| - 1], devices, id);
    }
  }

  lemma {:induction false} LastEventOfUnknown(rows: seq<EventRow>, devices: set<string>, id: string)
    requires forall i :: 0 <= i < |rows| ==> rows[i].deviceId in devices
    requires id !in devices
    ensures LastEvent(rows, id) == None
    decreases |rows|
  {
    if rows != [] {
      LastEventOfUnknown(rows[..|rows| - 1], devices, id);
    }
  }

  /** Appending a row changes the latest payload of that row's device only. */
  lemma LastTelemetryAppend(rows: seq<TelemetryRow>, row: TelemetryRow, id: string)
    ensures LastTelemetry(rows + [row], id) == if row.deviceId == id then Some(row.payload) else LastTelemetry(rows, id)
  {
    assert (rows + [row])[..|rows|] == rows;
  }

  lemma LastEventAppend(rows: seq<EventRow>, row: EventRow, id: string)
    ensures LastEvent(rows + [row], id) == if row.deviceId == id then Some(row.payload) else LastEvent(rows, id)
  {
    assert (rows + [row])[..|rows|] == rows;
  }

  /** Device ids the router hands out are non-empty and slash-free. */
  lemma RoutedDevice(topic: string, kind: string)
    requires Routed(topic, kind)
    ensures Topic.ParseTopic(topic).0 != "" && '/' !in Topic.ParseTopic(topic).0
  {
  }

  lemma TelemetryWriteValid(t: Tables, device: string, data: Json, ts: Timestamp, now: Timestamp)
    requires Valid(t) && device != "" && '/' !in device && IsPhpArray(data)
    ensures Valid(TelemetryWrite(t, device, data, ts, now))
  {
    TelemetryWriteLatest(t, device, data, ts, now);
    var r := TelemetryWrite(t, device, data, ts, now);
    assert forall i :: 0 <= i < |r.telemetry| ==> r.telemetry[i].deviceId in r.devices && IsPhpArray(r.telemetry[i].payload);
  }

  /** After the write every device's cached payloads are still the latest
      of its rows. */
  lemma TelemetryWriteLatest(t: Tables, device: string, data: Json, ts: Timestamp, now: Timestamp)
    requires Valid(t)
    ensures var r := TelemetryWrite(t, device, data, ts, now);
      forall id :: id in r.devices ==>
        r.devices[id].lastTelemetry == LastTelemetry(r.telemetry, id) && r.devices[id].lastEvent == LastEvent(r.events, id)
  {
    var r := TelemetryWrite(t, device, data, ts, now);
    var row := TelemetryRowOf(device, data, ts);
    if device !in t.devices {
      LastEventOfUnknown(t.events, t.devices.Keys, device);
    }
    forall id | id in r.devices
      ensures r.devices[id].lastTelemetry == LastTelemetry(r.telemetry, id)
      ensures r.devices[id].lastEvent == LastEvent(r.events, id)
    {
      LastTelemetryAppend(t.telemetry, row, id);
    }
  }

  lemma EventWriteValid(t: Tables, device: string, data: Json, ts: Timestamp, now: Timestamp)
    requires Valid(t) && device != "" && '/' !in device && IsPhpArray(data)
    ensures Valid(EventWrite(t, device, data, ts, now))
  {
    EventWriteLatest(t, device, data, ts, now);
    var r := EventWrite(t, device, data, ts, now);
    assert forall i :: 0 <= i < |r.events| ==> r.events[i].deviceId in r.devices && IsPhpArray(r.events[i].payload);
  }

  /** After the write every device's cached payloads are still the latest
      of its rows. */
  lemma EventWriteLatest(t: Tables, device: string, data: Json, ts: Timestamp, now: Timestamp)
    requires Valid(t)
    ensures var r := EventWrite(t, device, data, ts, now);
      forall id :: id in r.devices ==>
        r.devices[id].lastTelemetry == LastTelemetry(r.telemetry, id) && r.devices[id].lastEvent == LastEvent(r.events, id)
  {
    var r := EventWrite(t, device, data, ts, now);
    var row := EventRowOf(device, data, ts);
    if device !in t.devices {
      LastTelemetryOfUnknown(t.telemetry, t.devices.Keys, device);
    }
    forall id | id in r.devices
      ensures r.devices[id].lastTelemetry == LastTelemetry(r.telemetry, id)
      ensures r.devices[id].lastEvent == LastEvent(r.events, id)
    {
      LastEventAppend(t.events, row, id);
    }
  }

  lemma UpdateOnlineValid(t: Tables, device: string, online: bool, now: Timestamp)
    requires Valid(t) && device != "" && '/' !in device
    ensures Valid(t.(devices := UpdateOnline(t.devices, device, online, now)))
  {
    if device !in t.devices {
      LastTelemetryOfUnknown(t.telemetry, t.devices.Keys, device);
      LastEventOfUnknown(t.events, t.devices.Keys, device);
    }
  }

  /** Every message keeps the connection's invariant. */
  lemma DeliverValid(c: Conn, m: Message, parseIso: string -> Option<Timestamp>, env: Env)
    requires ConnValid(c)
    ensures ConnValid(Deliver(c, m, parseIso, env).0)
  {
    match m
    case TelemetryMsg(topic, body) =>
      if Routed(topic, "telemetry") {
        RoutedDevice(topic, "telemetry");
        var data := DecodeBody(body);
        HandleDataValid(c, TelemetryStream, Topic.ParseTopic(topic).0, data, MessageTime(data, env.now, parseIso), env);
      }
    case EventMsg(topic, body) =>
      if Routed(topic, "events") {
        RoutedDevice(topic, "events");
        var data := DecodeBody(body);
        HandleDataValid(c, EventStream, Topic.ParseTopic(topic).0, data, MessageTime(data, env.now, parseIso), env);
      }
    case OnlineMsg(topic, text) => DeliverOnlineValid(c, topic, text, parseIso, env);
  }

  /** A data message keeps the invariant: it commits both statements or
      neither, and a fault leaves the transaction open over the committed
      tables. */
  lemma HandleDataValid(c: Conn, s: Stream, device: string, data: Json, when: TsOutcome, env: Env)
    requires ConnValid(c) && device != "" && '/' !in device && IsPhpArray(data)
    ensures ConnValid(HandleData(c, s, device, data, when, env).0)
  {
    if when.At? && !c.txOpen && env.fault == NoFault {
      match s
      case TelemetryStream => TelemetryWriteValid(c.view, device, data, when.t, env.now);
      case EventStream => EventWriteValid(c.view, device, data, when.t, env.now);
    }
  }

  lemma DeliverOnlineValid(c: Conn, topic: string, text: string, parseIso: string -> Option<Timestamp>, env: Env)
    requires ConnValid(c)
    ensures ConnValid(Deliver(c, OnlineMsg(topic, text), parseIso, env).0)
  {
    if Routed(topic, "online") && !c.txOpen && env.fault == NoFault {
      UpdateOnlineValid(c.view, Topic.ParseTopic(topic).0, OnlineFlag(text), env.now);
    }
  }

  // ---------------------------------------------------------------------
  // Properties of one message
  // ---------------------------------------------------------------------

  /** A message on a topic its handler does not take changes nothing. */
  lemma UnroutedIsNoOp(c: Conn, m: Message, parseIso: string -> Option<Timestamp>, env: Env)
    requires m.TelemetryMsg? ==> !Routed(m.topic, "telemetry")
    requires m.EventMsg? ==> !Routed(m.topic, "events")
    requires m.OnlineMsg? ==> !Routed(m.topic, "online")
    ensures Deliver(c, m, parseIso, env) == (c, Ignored)
  {
  }

  /** An empty device segment is not routed: `home/iot//telemetry`. */
  lemma EmptyDeviceIgnored()
    ensures !Routed("home/iot//telemetry", "telemetry")
  {
    var t := Topic.TopicOf("", ["telemetry"]);
    Topic.SegmentsOfCanonical("", ["telemetry"]);
    assert Topic.ParseTopic(t).0 == "";
    EmptyDeviceTopic();
  }

  lemma EmptyDeviceTopic()
    ensures Topic.TopicOf("", ["telemetry"]) == "home/iot//telemetry"
  {
    Topic.TopicOfSpelled("", "telemetry");
    assert "home/iot/" + "" + "/" + "telemetry" == "home/iot//telemetry";
  }

  /** A status sub-kind other than "online" is not routed to the online
      handler: `home/iot/x/status/foo`. */
  lemma OtherStatusIgnored()
    ensures !Routed("home/iot/x/status/foo", "online")
  {
    var t := Topic.TopicOf("x", ["status", "foo"]);
    Topic.RoutesStatusTopic("x", "foo");
    assert Topic.ParseTopic(t).1 == "status";
    OtherStatusTopic();
  }

  lemma OtherStatusTopic()
    ensures Topic.TopicOf("x", ["status", "foo"]) == "home/iot/x/status/foo"
  {
    Topic.StatusTopicSpelled("x", "foo");
    assert "home/iot/" + "x" + "/status/" + "foo" == "home/iot/x/status/foo";
  }

  /** A stored telemetry message commits exactly one new history row for
      its device after the old ones, leaves the events alone, and never
      clears any device's last_event. */
  lemma TelemetryStored(c: Conn, topic: string, body: Option<Json>, parseIso: string -> Option<Timestamp>, env: Env)
    requires ConnValid(c)
    requires Deliver(c, TelemetryMsg(topic, body), parseIso, env).1 == Stored
    ensures var r := Deliver(c, TelemetryMsg(topic, body), parseIso, env).0;
      && !r.txOpen
      && |r.committed.telemetry| == |c.committed.telemetry| + 1
      && r.committed.telemetry[..|c.committed.telemetry|] == c.committed.telemetry
      && r.committed.telemetry[|c.committed.telemetry|].deviceId == Topic.ParseTopic(topic).0
      && r.committed.telemetry[|c.committed.telemetry|].payload == DecodeBody(body)
      && r.committed.events == c.committed.events
      && (forall id :: id in c.committed.devices ==> r.committed.devices[id].lastEvent == c.committed.devices[id].lastEvent)
      && r.committed.devices[Topic.ParseTopic(topic).0].lastTelemetry == Some(DecodeBody(body))
  {
    var data := DecodeBody(body);
    HandleDataOutcome(c, TelemetryStream, Topic.ParseTopic(topic).0, data, MessageTime(data, env.now, parseIso), env);
    var r := Deliver(c, TelemetryMsg(topic, body), parseIso, env).0;
    assert r.committed.telemetry[..|c.committed.telemetry|] == c.committed.telemetry;
  }

  /** A stored event commits exactly one new event row and never clears any
      device's last_telemetry. */
  lemma EventStored(c: Conn, topic: string, body: Option<Json>, parseIso: string -> Option<Timestamp>, env: Env)
    requires ConnValid(c)
    requires Deliver(c, EventMsg(topic, body), parseIso, env).1 == Stored
    ensures var r := Deliver(c, EventMsg(topic, body), parseIso, env).0;
      && !r.txOpen
      && |r.committed.events| == |c.committed.events| + 1
      && r.committed.events[..|c.committed.events|] == c.committed.events
      && r.committed.events[|c.committed.events|].deviceId == Topic.ParseTopic(topic).0
      && r.committed.events[|c.committed.events|].payload == DecodeBody(body)
      && r.committed.telemetry == c.committed.telemetry
      && (forall id :: id in c.committed.devices ==> r.committed.devices[id].lastTelemetry == c.committed.devices[id].lastTelemetry)
      && r.committed.devices[Topic.ParseTopic(topic).0].lastEvent == Some(DecodeBody(body))
  {
    var data := DecodeBody(body);
    HandleDataOutcome(c, EventStream, Topic.ParseTopic(topic).0, data, MessageTime(data, env.now, parseIso), env);
    var r := Deliver(c, EventMsg(topic, body), parseIso, env).0;
    assert r.committed.events[..|c.committed.events|] == c.committed.events;
  }

  /** A telemetry message is all or nothing on the committed tables:
      either both statements are committed or neither is. */
  lemma TelemetryAllOrNothing(c: Conn, topic: string, body: Option<Json>, parseIso: string -> Option<Timestamp>, env: Env)
    requires ConnValid(c)
    ensures var r := Deliver(c, TelemetryMsg(topic, body), parseIso, env);
      && (r.1 != Stored ==> r.0.committed == c.committed)
      && (r.1 == Stored ==>
            r.0.committed == TelemetryWrite(c.committed, Topic.ParseTopic(topic).0, DecodeBody(body),
                                            MessageTime(DecodeBody(body), env.now, parseIso).t, env.now))
  {
    if Routed(topic, "telemetry") {
      var data := DecodeBody(body);
      HandleDataOutcome(c, TelemetryStream, Topic.ParseTopic(topic).0, data, MessageTime(data, env.now, parseIso), env);
    }
  }

  /** The same for an event message. */
  lemma EventAllOrNothing(c: Conn, topic: string, body: Option<Json>, parseIso: string -> Option<Timestamp>, env: Env)
    requires ConnValid(c)
    ensures var r := Deliver(c, EventMsg(topic, body), parseIso, env);
      && (r.1 != Stored ==> r.0.committed == c.committed)
      && (r.1 == Stored ==>
            r.0.committed == EventWrite(c.committed, Topic.ParseTopic(topic).0, DecodeBody(body),
                                        MessageTime(DecodeBody(body), env.now, parseIso).t, env.now))
  {
    if Routed(topic, "events") {
      var data := DecodeBody(body);
      HandleDataOutcome(c, EventStream, Topic.ParseTopic(topic).0, data, MessageTime(data, env.now, parseIso), env);
    }
  }

  /** An online message outside a transaction sets online from the trimmed
      text and last_seen to the processing time, and nothing else. */
  lemma OnlineStored(c: Conn, topic: string, text: string, parseIso: string -> Option<Timestamp>, env: Env)
    requires ConnValid(c) && !c.txOpen && Routed(topic, "online") && env.fault == NoFault
    ensures var r := Deliver(c, OnlineMsg(topic, text), parseIso, env);
      var id := Topic.ParseTopic(topic).0;
      && r.1 == Stored
      && r.0.committed.devices[id].online == (Text.Trim(text, Text.PhpWhitespace) == "1")
      && r.0.committed.devices[id].lastSeen == env.now
      && r.0.committed.telemetry == c.committed.telemetry && r.0.committed.events == c.committed.events
      && (id in c.committed.devices ==>
            r.0.committed.devices[id].ip == c.committed.devices[id].ip
            && r.0.committed.devices[id].lastTelemetry == c.committed.devices[id].lastTelemetry
            && r.0.committed.devices[id].lastEvent == c.committed.devices[id].lastEvent)
      && (id !in c.committed.devices ==>
            r.0.committed.devices[id].ip.None? && r.0.committed.devices[id].lastTelemetry.None?
            && r.0.committed.devices[id].lastEvent.None?)
  {
  }

  // ---------------------------------------------------------------------
  // The stuck transaction, and the rollback that prevents it
  // ---------------------------------------------------------------------

  /** A storage fault inside a routed telemetry message leaves the
      connection's transaction open. */
  lemma FaultLeavesTransactionOpen(c: Conn, topic: string, body: Option<Json>, parseIso: string -> Option<Timestamp>, env: Env)
    requires !c.txOpen && Routed(topic, "telemetry") && env.fault != NoFault
    requires MessageTime(DecodeBody(body), env.now, parseIso).At?
    ensures Deliver(c, TelemetryMsg(topic, body), parseIso, env).0.txOpen
    ensures Deliver(c, TelemetryMsg(topic, body), parseIso, env).0.committed == c.committed
  {
  }

  /** Once a transaction is left open, no later message of any kind is
      ever committed: the dashboards' view of the tables is frozen. */
  lemma {:induction false} StuckTransactionFreezes(c: Conn, ms: seq<(Message, Env)>, parseIso: string -> Option<Timestamp>)
    requires c.txOpen
    ensures Run(c, ms, parseIso).txOpen
    ensures Run(c, ms, parseIso).committed == c.committed
    decreases |ms|
  {
    if ms != [] {
      OpenTransactionStaysOpen(c, ms[0].0, parseIso, ms[0].1);
      StuckTransactionFreezes(Deliver(c, ms[0].0, parseIso, ms[0].1).0, ms[1..], parseIso);
    }
  }

  /** The topic `home/iot/cam1/telemetry` (CanonicalCam1Topic). */
  const Cam1Topic: string := Topic.TopicOf("cam1", ["telemetry"])

  /** With a transaction open, a message commits nothing and the
      transaction stays open. */
  lemma OpenTransactionStaysOpen(c: Conn, m: Message, parseIso: string -> Option<Timestamp>, env: Env)
    requires c.txOpen
    ensures Deliver(c, m, parseIso, env).0.txOpen
    ensures Deliver(c, m, parseIso, env).0.committed == c.committed
  {
    match m
    case TelemetryMsg(topic, body) =>
      if Routed(topic, "telemetry") {
        var data := DecodeBody(body);
        HandleDataOutcome(c, TelemetryStream, Topic.ParseTopic(topic).0, data, MessageTime(data, env.now, parseIso), env);
      }
    case EventMsg(topic, body) =>
      if Routed(topic, "events") {
        var data := DecodeBody(body);
        HandleDataOutcome(c, EventStream, Topic.ParseTopic(topic).0, data, MessageTime(data, env.now, parseIso), env);
      }
    case OnlineMsg(topic, text) =>
  }

  /** The concrete case: one telemetry message whose upsert the database
      rejects, then a good telemetry message for the same device, which is
      not committed. */
  lemma StuckTransactionExample(parseIso: string -> Option<Timestamp>)
    ensures var m := TelemetryMsg(Cam1Topic, Some(JObj(map[])));
      var c := Run(Conn(Empty, Empty, false), [(m, Env(100, FailsAtFirst)), (m, Env(101, NoFault))], parseIso);
      c.committed == Empty && c.txOpen
  {
    Topic.RoutesDataTopic("cam1", "telemetry");
    var m := TelemetryMsg(Cam1Topic, Some(JObj(map[])));
    var ms := [(m, Env(100, FailsAtFirst)), (m, Env(101, NoFault))];
    var c1 := Deliver(Conn(Empty, Empty, false), m, parseIso, Env(100, FailsAtFirst)).0;
    assert c1.txOpen;
    StuckTransactionFreezes(c1, ms[1..], parseIso);
  }

  lemma CanonicalCam1Topic()
    ensures Cam1Topic == "home/iot/cam1/telemetry"
  {
    Topic.TopicOfSpelled("cam1", "telemetry");
    assert "home/iot/" + "cam1" + "/" + "telemetry" == "home/iot/cam1/telemetry";
  }

  /** With the rollback, no transaction is ever left open after a message,
      and a message that raises leaves exactly the committed tables. */
  lemma RollbackNeverLeavesTransactionOpen(c: Conn, m: Message, parseIso: string -> Option<Timestamp>, env: Env)
    requires ConnValid(c) && !c.txOpen
    ensures !DeliverWithRollback(c, m, parseIso, env).0.txOpen
    ensures ConnValid(DeliverWithRollback(c, m, parseIso, env).0)
    ensures DeliverWithRollback(c, m, parseIso, env).1 == Raised ==>
      DeliverWithRollback(c, m, parseIso, env).0 == Conn(c.committed, c.committed, false)
  {
    DeliverValid(c, m, parseIso, env);
    UnraisedKeepsTransaction(c, m, parseIso, env);
  }

  /** A message that raises nothing leaves the transaction flag as it was;
      one that raises has committed nothing. */
  lemma UnraisedKeepsTransaction(c: Conn, m: Message, parseIso: string -> Option<Timestamp>, env: Env)
    ensures Deliver(c, m, parseIso, env).1 != Raised ==> Deliver(c, m, parseIso, env).0.txOpen == c.txOpen
    ensures Deliver(c, m, parseIso, env).1 == Raised ==> Deliver(c, m, parseIso, env).0.committed == c.committed
  {
    match m
    case TelemetryMsg(topic, body) =>
      if Routed(topic, "telemetry") {
        var data := DecodeBody(body);
        HandleDataOutcome(c, TelemetryStream, Topic.ParseTopic(topic).0, data, MessageTime(data, env.now, parseIso), env);
      }
    case EventMsg(topic, body) =>
      if Routed(topic, "events") {
        var data := DecodeBody(body);
        HandleDataOutcome(c, EventStream, Topic.ParseTopic(topic).0, data, MessageTime(data, env.now, parseIso), env);
      }
    case OnlineMsg(topic, text) =>
  }

  /** What a data message leaves behind: a raise commits nothing, a store
      commits both statements on a connection that had no transaction open. */
  lemma HandleDataOutcome(c: Conn, s: Stream, device: string, data: Json, when: TsOutcome, env: Env)
    ensures var r := HandleData(c, s, device, data, when, env);
      && r.1 != Ignored
      && (r.1 == Raised ==> r.0.committed == c.committed)
      && (r.1 == Stored ==>
            && !c.txOpen && when.At? && env.fault == NoFault
            && r.0 == Conn(Write(s, c.view, device, data, when.t, env.now), Write(s, c.view, device, data, when.t, env.now), false))
  {
  }

  /** With the rollback, every run keeps the invariant and ends with no
      open transaction, so a fault costs only the message that hit it. */
  lemma {:induction false} RollbackRunRecovers(c: Conn, ms: seq<(Message, Env)>, parseIso: string -> Option<Timestamp>)
    requires ConnValid(c) && !c.txOpen
    ensures ConnValid(RunWithRollback(c, ms, parseIso)) && !RunWithRollback(c, ms, parseIso).txOpen
    decreases |ms|
  {
    if ms != [] {
      RollbackNeverLeavesTransactionOpen(c, ms[0].0, parseIso, ms[0].1);
      RollbackRunRecovers(DeliverWithRollback(c, ms[0].0, parseIso, ms[0].1).0, ms[1..], parseIso);
    }
  }

  /** With the rollback, the same two messages as in
      StuckTransactionExample commit the second one. */
  lemma RollbackExample(parseIso: string -> Option<Timestamp>)
    ensures var m := TelemetryMsg(Cam1Topic, Some(JObj(map[])));
      var c := RunWithRollback(Conn(Empty, Empty, false), [(m, Env(100, FailsAtFirst)), (m, Env(101, NoFault))], parseIso);
      |c.committed.telemetry| == 1 && "cam1" in c.committed.devices && !c.txOpen
  {
    var m := TelemetryMsg(Cam1Topic, Some(JObj(map[])));
    var ms := [(m, Env(100, FailsAtFirst)), (m, Env(101, NoFault))];
    Cam1FaultRolledBack(parseIso);
    var c1 := DeliverWithRollback(Conn(Empty, Empty, false), m, parseIso, Env(100, FailsAtFirst)).0;
    Cam1Committed(parseIso);
    var c2 := DeliverWithRollback(c1, m, parseIso, Env(101, NoFault)).0;
    assert ms[0] == (m, Env(100, FailsAtFirst)) && ms[1..][0] == (m, Env(101, NoFault)) && ms[1..][1..] == [];
    assert RunWithRollback(Conn(Empty, Empty, false), ms, parseIso) == RunWithRollback(c1, ms[1..], parseIso);
    assert RunWithRollback(c1, ms[1..], parseIso) == RunWithRollback(c2, [], parseIso);
  }

  /** A cam1 telemetry message with an empty body reaches the telemetry
      handler stamped with the arrival time. */
  lemma Cam1Delivered(c: Conn, parseIso: string -> Option<Timestamp>, env: Env)
    ensures Deliver(c, TelemetryMsg(Cam1Topic, Some(JObj(map[]))), parseIso, env)
         == HandleData(c, TelemetryStream, "cam1", JObj(map[]), At(env.now), env)
  {
    Topic.RoutesDataTopic("cam1", "telemetry");
    assert DecodeBody(Some(JObj(map[]))) == JObj(map[]);
    assert MessageTime(JObj(map[]), env.now, parseIso) == At(env.now);
  }

  /** The first message of RollbackExample: the fault is rolled back. */
  lemma Cam1FaultRolledBack(parseIso: string -> Option<Timestamp>)
    ensures var m := TelemetryMsg(Cam1Topic, Some(JObj(map[])));
      DeliverWithRollback(Conn(Empty, Empty, false), m, parseIso, Env(100, FailsAtFirst)).0 == Conn(Empty, Empty, false)
  {
    Cam1Delivered(Conn(Empty, Empty, false), parseIso, Env(100, FailsAtFirst));
  }

  /** The second message of RollbackExample: committed on a clean store. */
  lemma Cam1Committed(parseIso: string -> Option<Timestamp>)
    ensures var m := TelemetryMsg(Cam1Topic, Some(JObj(map[])));
      var c := DeliverWithRollback(Conn(Empty, Empty, false), m, parseIso, Env(101, NoFault)).0;
      |c.committed.telemetry| == 1 && "cam1" in c.committed.devices && !c.txOpen
  {
    var c0 := Conn(Empty, Empty, false);
    var env := Env(101, NoFault);
    Cam1Delivered(c0, parseIso, env);
    var t := TelemetryWrite(Empty, "cam1", JObj(map[]), 101, 101);
    assert HandleData(c0, TelemetryStream, "cam1", JObj(map[]), At(101), env) == (Conn(t, t, false), Stored);
    assert |t.telemetry| == 1 && "cam1" in t.devices;
  }

  // ---------------------------------------------------------------------
  // The worker's store as the handlers mutate it
  // ---------------------------------------------------------------------

  class Store {
    var devices: map<string, DeviceRow>
    var telemetry: seq<TelemetryRow>
    var events: seq<EventRow>
    var committed: Tables
    var txOpen: bool

    function View(): Tables
      reads this
    {
      Tables(devices, telemetry, events)
    }

    function State(): Conn
      reads this
    {
      Conn(View(), committed, txOpen)
    }

    ghost predicate Inv()
      reads this
    {
      ConnValid(State())
    }

    constructor ()
      ensures State() == Conn(Empty, Empty, false) && Inv()
    {
      devices := map[];
      telemetry := [];
      events := [];
      committed := Empty;
      txOpen := false;
    }

    /** PDO::beginTransaction: throws when one is already active. */
    method BeginTransaction() returns (ok: bool)
      modifies this
      ensures ok == !old(txOpen) && txOpen
      ensures View() == old(View()) && committed == old(committed)
    {
      if txOpen {
        return false;
      }
      txOpen := true;
      return true;
    }

    method Commit()
      requires txOpen
      modifies this
      ensures !txOpen && committed == View() && View() == old(View())
    {
      committed := View();
      txOpen := false;
    }

    /** A statement's effect becomes committed at once outside a transaction. */
    method AutoCommit()
      modifies this
      ensures View() == old(View()) && txOpen == old(txOpen)
      ensures committed == if txOpen then old(committed) else View()
    {
      if !txOpen {
        committed := View();
      }
    }

    method ExecUpsertDevice(id: string, lastSeen: Timestamp, ip: Option<string>, tel: Option<Json>, evt: Option<Json>, now: Timestamp)
      modifies this
      ensures devices == UpsertDevice(old(devices), id, lastSeen, ip, tel, evt, now)
      ensures telemetry == old(telemetry) && events == old(events) && txOpen == old(txOpen)
      ensures committed == if txOpen then old(committed) else View()
    {
      devices := UpsertDevice(devices, id, lastSeen, ip, tel, evt, now);
      AutoCommit();
    }

    method ExecUpdateOnline(id: string, online: bool, now: Timestamp)
      modifies this
      ensures devices == UpdateOnline(old(devices), id, online, now)
      ensures telemetry == old(telemetry) && events == old(events) && txOpen == old(txOpen)
      ensures committed == if txOpen then old(committed) else View()
    {
      devices := UpdateOnline(devices, id, online, now);
      AutoCommit();
    }

    method ExecInsertTelemetry(row: TelemetryRow)
      modifies this
      ensures telemetry == old(telemetry) + [row]
      ensures devices == old(devices) && events == old(events) && txOpen == old(txOpen)
      ensures committed == if txOpen then old(committed) else View()
    {
      telemetry := telemetry + [row];
      AutoCommit();
    }

    method ExecInsertEvent(row: EventRow)
      modifies this
      ensures events == old(events) + [row]
      ensures devices == old(devices) && telemetry == old(telemetry) && txOpen == old(txOpen)
      ensures committed == if txOpen then old(committed) else View()
    {
      events := events + [row];
      AutoCommit();
    }

    /** The `$topicRoot/+/telemetry` callback. */
    method OnTelemetry(topic: string, body: Option<Json>, parseIso: string -> Option<Timestamp>, env: Env) returns (outcome: Outcome)
      requires Inv()
      modifies this
      ensures (State(), outcome) == Deliver(old(State()), TelemetryMsg(topic, body), parseIso, env)
      ensures Inv()
    {
      DeliverValid(State(), TelemetryMsg(topic, body), parseIso, env);
      var (device, kind) := Topic.ParseTopic(topic);
      if device == "" || kind != "telemetry" {
        return Ignored;
      }
      var data := DecodeBody(body);
      var when := MessageTime(data, env.now, parseIso);
      if when.TypeError? {
        return Raised;
      }
      var ok := BeginTransaction();
      if !ok || env.fault == FailsAtFirst {
        return Raised;
      }
      ExecUpsertDevice(device, when.t, IpOf(data), Some(data), None, env.now);
      if env.fault == FailsAtSecond {
        return Raised;
      }
      ExecInsertTelemetry(TelemetryRowOf(device, data, when.t));
      Commit();
      return Stored;
    }

    /** The `$topicRoot/+/events` callback. */
    method OnEvent(topic: string, body: Option<Json>, parseIso: string -> Option<Timestamp>, env: Env) returns (outcome: Outcome)
      requires Inv()
      modifies this
      ensures (State(), outcome) == Deliver(old(State()), EventMsg(topic, body), parseIso, env)
      ensures Inv()
    {
      DeliverValid(State(), EventMsg(topic, body), parseIso, env);
      var (device, kind) := Topic.ParseTopic(topic);
      if device == "" || kind != "events" {
        return Ignored;
      }
      var data := DecodeBody(body);
      var when := MessageTime(data, env.now, parseIso);
      if when.TypeError? {
        return Raised;
      }
      var ok := BeginTransaction();
      if !ok || env.fault == FailsAtFirst {
        return Raised;
      }
      ExecUpsertDevice(device, when.t, IpOf(data), None, Some(data), env.now);
      if env.fault == FailsAtSecond {
        return Raised;
      }
      ExecInsertEvent(EventRowOf(device, data, when.t));
      Commit();
      return Stored;
    }

    /** The `$topicRoot/+/status/online` callback: one statement, no
        transaction of its own. */
    method OnOnline(topic: string, text: string, parseIso: string -> Option<Timestamp>, env: Env) returns (outcome: Outcome)
      requires Inv()
      modifies this
      ensures (State(), outcome) == Deliver(old(State()), OnlineMsg(topic, text), parseIso, env)
      ensures Inv()
    {
      DeliverValid(State(), OnlineMsg(topic, text), parseIso, env);
      var (device, kind) := Topic.ParseTopic(topic);
      if device == "" || kind != "online" {
        return Ignored;
      }
      if env.fault != NoFault {
        return Raised;
      }
      ExecUpdateOnline(device, OnlineFlag(text), env.now);
      return Stored;
    }

    /** PDO::rollBack: drop the uncommitted writes. */
    method RollBack()
      modifies this
      ensures State() == Conn(old(committed), old(committed), false)
    {
      devices := committed.devices;
      telemetry := committed.telemetry;
      events := committed.events;
      txOpen := false;
    }

    /** A handler wrapped in the missing `catch (Throwable $e) {
        $pdo->rollBack(); throw $e; }`. */
    method HandleWithRollback(m: Message, parseIso: string -> Option<Timestamp>, env: Env) returns (outcome: Outcome)
      requires Inv() && !txOpen
      modifies this
      ensures (State(), outcome) == DeliverWithRollback(old(State()), m, parseIso, env)
      ensures Inv() && !txOpen
    {
      RollbackNeverLeavesTransactionOpen(State(), m, parseIso, env);
      match m {
        case TelemetryMsg(topic, body) =>
          outcome := OnTelemetry(topic, body, parseIso, env);
        case EventMsg(topic, body) =>
          outcome := OnEvent(topic, body, parseIso, env);
        case OnlineMsg(topic, text) =>
          outcome := OnOnline(topic, text, parseIso, env);
      }
      if outcome == Raised {
        RollBack();
      }
    }
  }
}
