/** The older client embedded in dashboard.php: a roster of devices
    refreshed by polls of `?api=devices` with Object.assign, a selected
    device, and the MQTT 'message' handler. Rendering, the chart and the
    history fetch are not modelled.

    `nowIso` stands for `new Date().toISOString()`; `parsed` is what
    JSON.parse returned (None when it throws). */
module InlineDashboard {
  import Text
  import Topic
  import opened JsonValue
  import Reconciler

  /** The part of `state` the script reads and writes. */
  datatype Page = Page(devices: map<string, JsObject>, selected: Option<string>)

  // ---------------------------------------------------------------------
  // loadDevices
  // ---------------------------------------------------------------------

  /** `Object.assign(target, d)`: every own property of d, nulls included,
      replaces the target's; the target's other properties stay. */
  function Assign(target: JsObject, d: Json): (r: JsObject)
    ensures r.Keys == target.Keys + Spread(d).Keys
    ensures forall k :: k in Spread(d) ==> r[k] == Spread(d)[k]
    ensures forall k :: k in target && k !in Spread(d) ==> r[k] == target[k]
  {
    var src := Spread(d);
    map k | k in target.Keys + src.Keys :: if k in src then src[k] else target[k]
  }

  /** The property key `state.devices[d.device_id]` uses: String() of the
      id, "undefined" when the row has none. */
  function PollKey(d: Json): string
  {
    match JsProp(d, "device_id")
    case None => "undefined"
    case Some(v) => JsToString(v)
  }

  /** One iteration of `for (const d of j.devices)`; None when `d.device_id`
      throws because the row is null. */
  function PollRow(devices: map<string, JsObject>, d: Json): Option<map<string, JsObject>>
  {
    if d == JNull then None
    else
      var k := PollKey(d);
      Some(devices[k := Assign(if k in devices then devices[k] else map[], d)])
  }

  /** The whole loop: the roster it leaves, and whether it ran to the end
      (a TypeError abandons the rest of loadDevices). */
  function PollRows(devices: map<string, JsObject>, rows: seq<Json>): (r: (map<string, JsObject>, bool))
    ensures r.1 <==> JNull !in rows
    decreases |rows|
  {
    if rows == [] then (devices, true)
    else
      match PollRow(devices, rows[0])
      case None => (devices, false)
      case Some(next) => PollRows(next, rows[1..])
  }

  /** The selection step: only an unset selection moves, to the least id. */
  ghost predicate Reselected(before: Option<string>, keys: set<string>, after: Option<string>)
  {
    if Reconciler.HasSelection(before) || keys == {} then after == before
    else after.Some? && Text.IsLeast(after.value, keys)
  }

  /** A polled row overwrites its entry field by field, nulls included,
      keeps the entry's other fields and leaves every other device alone. */
  lemma PollOverwrites(devices: map<string, JsObject>, d: Json)
    requires d.JObj?
    ensures var k := PollKey(d);
      var r := PollRow(devices, d);
      && r.Some?
      && r.value.Keys == devices.Keys + {k}
      && (forall id :: id in devices && id != k ==> r.value[id] == devices[id])
      && (forall f :: f in d.fields ==> r.value[k][f] == d.fields[f])
      && (forall f :: k in devices && f in devices[k] && f !in d.fields ==> r.value[k][f] == devices[k][f])
  {
  }

  /** The same poll row with a null last_telemetry: the page clears the
      stored value, dashboard.js keeps it. */
  lemma NullPollContrast(devices: map<string, JsObject>, id: string, v: Json)
    requires id != "" && id in devices && Truthy(Some(v))
    requires "last_telemetry" in devices[id] && devices[id]["last_telemetry"] == v
    ensures var d := JObj(map["device_id" := JStr(id), "last_telemetry" := JNull]);
      && PollRow(devices, d).value[id]["last_telemetry"] == JNull
      && Reconciler.Normalize(devices, d)[id]["last_telemetry"] == v
  {
    var d := JObj(map["device_id" := JStr(id), "last_telemetry" := JNull]);
    assert PollKey(d) == id;
    assert Reconciler.PolledId(d) == id;
  }

  /** One step of the loop over rows[i..]. */
  lemma PollRowsStep(devices: map<string, JsObject>, rows: seq<Json>, i: nat)
    requires i < |rows|
    ensures rows[i] == JNull ==> PollRows(devices, rows[i..]) == (devices, false)
    ensures rows[i] != JNull ==>
      PollRows(devices, rows[i..]) == PollRows(PollRow(devices, rows[i]).value, rows[i + 1..])
  {
    assert rows[i..][0] == rows[i] && rows[i..][1..] == rows[i + 1..];
  }

  /** A poll never removes a device. */
  lemma {:induction false} PollKeepsDevices(devices: map<string, JsObject>, rows: seq<Json>)
    ensures PollRows(devices, rows).0.Keys >= devices.Keys
    decreases |rows|
  {
    if rows != [] && rows[0] != JNull {
      PollKeepsDevices(PollRow(devices, rows[0]).value, rows[1..]);
    }
  }

  /** A null row at position i: the rows before it are applied, the rest
      of the poll is not, and loadDevices stops there. */
  lemma {:induction false} PollStopsAtNull(devices: map<string, JsObject>, rows: seq<Json>, i: nat)
    requires i < |rows| && rows[i] == JNull
    requires forall j :: 0 <= j < i ==> rows[j] != JNull
    ensures !PollRows(devices, rows).1
    ensures PollRows(devices, rows).0 == PollRows(devices, rows[..i]).0
    decreases i
  {
    if i > 0 {
      var next := PollRow(devices, rows[0]).value;
      assert rows[1..][..i - 1] == rows[..i][1..];
      PollStopsAtNull(next, rows[1..], i - 1);
    }
  }

  /** A selection the roster does not hold: the page keeps it, dashboard.js
      moves to the least id. */
  lemma SelectionContrast(sel: Option<string>, keys: set<string>, after: Option<string>)
    requires Reconciler.HasSelection(sel) && sel.value !in keys && keys != {}
    ensures Reselected(sel, keys, after) ==> after == sel
    ensures Reconciler.ReselectedFrom(sel, keys, after) ==> after != sel
  {
  }

  // ---------------------------------------------------------------------
  // The message handler
  // ---------------------------------------------------------------------

  /** The telemetry branch; a null body throws at `data.ip` after
      last_telemetry was already set. */
  function LiveTelemetry(dev: JsObject, data: Json, nowIso: string): (r: JsObject)
    ensures "last_telemetry" in r && r["last_telemetry"] == data
    ensures data == JNull ==> r.Keys == dev.Keys + {"last_telemetry"}
    ensures data != JNull ==> r.Keys == dev.Keys + {"last_telemetry", "ip", "last_seen", "online"} && r["online"] == JNum(1)
    ensures forall k :: k in dev && k !in {"last_telemetry", "ip", "last_seen", "online"} ==> r[k] == dev[k]
  {
    var d1 := dev["last_telemetry" := data];
    if data == JNull then d1
    else d1["ip" := OrElse(Or(JsProp(data, "ip"), Get(d1, "ip")), JNull)]
           ["last_seen" := OrElse(JsProp(data, "ts"), JStr(nowIso))]
           ["online" := JNum(1)]
  }

  /** The events branch; a null body throws at `data.ts`. */
  function LiveEvent(dev: JsObject, data: Json, nowIso: string): (r: JsObject)
    ensures "last_event" in r && r["last_event"] == data
    ensures data == JNull ==> r.Keys == dev.Keys + {"last_event"}
    ensures data != JNull ==> r.Keys == dev.Keys + {"last_event", "last_seen", "online"} && r["online"] == JNum(1)
    ensures forall k :: k in dev && k !in {"last_event", "last_seen", "online"} ==> r[k] == dev[k]
  {
    var d1 := dev["last_event" := data];
    if data == JNull then d1
    else d1["last_seen" := OrElse(JsProp(data, "ts"), JStr(nowIso))]["online" := JNum(1)]
  }

  /** The online branch. */
  function LiveOnline(dev: JsObject, message: string, nowIso: string): (r: JsObject)
    ensures r.Keys == dev.Keys + {"online", "last_seen"} && r["last_seen"] == JStr(nowIso)
    ensures r["online"] == JNum(1) <==> Text.Trim(message, Text.JsWhitespace) == "1"
    ensures r["online"] == JNum(1) || r["online"] == JNum(0)
    ensures forall k :: k in dev && k !in {"online", "last_seen"} ==> r[k] == dev[k]
  {
    assert "online" != "last_seen" by { assert "online"[0] != "last_seen"[0]; }
    dev["online" := JNum(if Text.Trim(message, Text.JsWhitespace) == "1" then 1 else 0)]["last_seen" := JStr(nowIso)]
  }

  /** What a routed message of the given kind does to its entry. */
  function Updated(dev: JsObject, kind: string, message: string, parsed: Option<Json>, nowIso: string): JsObject
  {
    if kind == "online" then LiveOnline(dev, message, nowIso)
    else if parsed.None? then dev
    else if kind == "telemetry" then LiveTelemetry(dev, parsed.value, nowIso)
    else LiveEvent(dev, parsed.value, nowIso)
  }

  /** `state.mqtt.on('message', …)`: the entry is created before the body
      is parsed; a body that does not parse changes nothing else. */
  function OnMessage(p: Page, topic: string, message: string, parsed: Option<Json>, nowIso: string): Page
  {
    if !Topic.ClientAccepts(topic) then p
    else
      var id := Topic.DeviceFromTopic(topic).value;
      var kind := Topic.TypeFromTopic(topic).value;
      var dev := if id in p.devices then p.devices[id] else Reconciler.NewDevice(JStr(id));
      var dev' := Updated(dev, kind, message, parsed, nowIso);
      Page(p.devices[id := dev'], if Reconciler.HasSelection(p.selected) then p.selected else Some(id))
  }

  /** A message the routing rejects changes nothing. */
  lemma UnroutedIgnored(p: Page, topic: string, message: string, parsed: Option<Json>, nowIso: string)
    requires !Topic.ClientAccepts(topic)
    ensures OnMessage(p, topic, message, parsed, nowIso) == p
  {
  }

  /** A routed message always leaves its device in the roster (created
      with online 0 when new), selects it when nothing is selected, and
      leaves other devices and an existing selection alone. */
  lemma RoutedMessage(p: Page, topic: string, message: string, parsed: Option<Json>, nowIso: string)
    requires Topic.ClientAccepts(topic)
    ensures var id := Topic.DeviceFromTopic(topic).value;
      var r := OnMessage(p, topic, message, parsed, nowIso);
      && r.devices.Keys == p.devices.Keys + {id}
      && (forall k :: k in p.devices && k != id ==> r.devices[k] == p.devices[k])
      && (Reconciler.HasSelection(p.selected) ==> r.selected == p.selected)
      && (!Reconciler.HasSelection(p.selected) ==> r.selected == Some(id))
  {
  }

  /** A telemetry or event body that does not parse still creates the
      entry `{ device_id, online: 0 }`, and changes nothing else. */
  lemma MalformedStillCreates(p: Page, topic: string, message: string, nowIso: string)
    requires Topic.ClientAccepts(topic) && Topic.TypeFromTopic(topic).value != "online"
    ensures var id := Topic.DeviceFromTopic(topic).value;
      var r := OnMessage(p, topic, message, None, nowIso);
      && r.devices == p.devices[id := if id in p.devices then p.devices[id] else Reconciler.NewDevice(JStr(id))]
      && (id !in p.devices ==> r.devices[id]["online"] == JNum(0))
  {
  }

  /** dashboard.js drops a body that does not parse before touching the
      roster; the page creates the device anyway. */
  lemma MalformedContrast(p: Page, sel: seq<JsObject>, topic: string, message: string, nowIso: string)
    requires Topic.ClientAccepts(topic) && Topic.TypeFromTopic(topic).value == "telemetry"
    requires Topic.DeviceFromTopic(topic).value !in p.devices
    ensures var id := Topic.DeviceFromTopic(topic).value;
      && id in OnMessage(p, topic, message, None, nowIso).devices
      && id !in Reconciler.OnMessage(Reconciler.Ui(p.devices, p.selected, sel), topic, message, None, nowIso).devices
  {
  }

  /** Live telemetry: last_telemetry is the body, ip is `data.ip || old ip
      || null`, last_seen is `data.ts || now`, online is 1, and
      last_event is untouched. */
  lemma TelemetryFields(dev: JsObject, data: Json, nowIso: string)
    requires data != JNull
    ensures var r := LiveTelemetry(dev, data, nowIso);
      && r["last_telemetry"] == data
      && r["ip"] == OrElse(Or(JsProp(data, "ip"), Get(dev, "ip")), JNull)
      && r["last_seen"] == OrElse(JsProp(data, "ts"), JStr(nowIso))
      && r["online"] == JNum(1)
      && Get(r, "last_event") == Get(dev, "last_event")
  {
  }

  /** A live event sets last_event, last_seen and online, never ip. */
  lemma EventFields(dev: JsObject, data: Json, nowIso: string)
    requires data != JNull
    ensures var r := LiveEvent(dev, data, nowIso);
      && r["last_event"] == data
      && r["last_seen"] == OrElse(JsProp(data, "ts"), JStr(nowIso))
      && r["online"] == JNum(1)
      && Get(r, "ip") == Get(dev, "ip")
      && Get(r, "last_telemetry") == Get(dev, "last_telemetry")
  {
  }

  /** A body of `null` only overwrites the stored body with null: the
      handler throws before ip, last_seen and online. */
  lemma NullBodyQuirk(dev: JsObject, nowIso: string)
    ensures LiveTelemetry(dev, JNull, nowIso) == dev["last_telemetry" := JNull]
    ensures LiveEvent(dev, JNull, nowIso) == dev["last_event" := JNull]
    ensures Get(LiveTelemetry(dev, JNull, nowIso), "online") == Get(dev, "online")
  {
  }

  /** An online message: online is 1 iff the trimmed text is "1", last_seen
      is now, every other field stays. */
  lemma OnlineFields(dev: JsObject, message: string, nowIso: string)
    ensures var r := LiveOnline(dev, message, nowIso);
      && (r["online"] == JNum(1) <==> Text.Trim(message, Text.JsWhitespace) == "1")
      && (r["online"] == JNum(0) <==> Text.Trim(message, Text.JsWhitespace) != "1")
      && r["last_seen"] == JStr(nowIso)
      && (forall f :: f in dev && f != "online" && f != "last_seen" ==> r[f] == dev[f])
  {
  }

  // ---------------------------------------------------------------------
  // The script's state
  // ---------------------------------------------------------------------

  class InlinePage {
    var devices: map<string, JsObject>
    var selected: Option<string>

    function State(): Page
      reads this
    {
      Page(devices, selected)
    }

    /** `const state = { devices: {}, selected: null, … }`. */
    constructor ()
      ensures State() == Page(map[], None)
    {
      devices := map[];
      selected := None;
    }

    /** loadDevices after the fetch: `ok` is `j.ok`, `rows` is `j.devices`. */
    method LoadDevices(ok: bool, rows: seq<Json>)
      modifies this
      ensures !ok ==> State() == old(State())
      ensures ok ==> devices == PollRows(old(devices), rows).0
      ensures ok && !PollRows(old(devices), rows).1 ==> selected == old(selected)
      ensures ok && PollRows(old(devices), rows).1 ==> Reselected(old(selected), devices.Keys, selected)
    {
      if !ok {
        return;
      }
      var i := 0;
      while i < |rows|
        invariant 0 <= i <= |rows|
        invariant PollRows(devices, rows[i..]) == PollRows(old(devices), rows)
        invariant selected == old(selected)
      {
        var d := rows[i];
        PollRowsStep(devices, rows, i);
        if d == JNull {
          return;
        }
        var key := PollKey(d);
        var cur := if key in devices then devices[key] else map[];
        devices := devices[key := Assign(cur, d)];
        i := i + 1;
      }
      if !Reconciler.HasSelection(selected) && devices.Keys != {} {
        var first := Text.Smallest(devices.Keys);
        selected := Some(first);
      }
    }

    /** selectDevice: the history fetch that follows is not modelled. */
    method SelectDevice(id: string)
      modifies this
      ensures State() == Page(old(devices), Some(id))
    {
      selected := Some(id);
    }

    method HandleMessage(topic: string, message: string, parsed: Option<Json>, nowIso: string)
      modifies this
      ensures State() == OnMessage(old(State()), topic, message, parsed, nowIso)
    {
      var deviceId := Topic.DeviceFromTopic(topic);
      var kind := Topic.TypeFromTopic(topic);
      if deviceId.None? || deviceId.value == "" || kind.None? {
        return;
      }
      assert Topic.ClientAccepts(topic);
      var id := deviceId.value;
      var dev := if id in devices then devices[id] else Reconciler.NewDevice(JStr(id));
      ghost var before := State();
      ghost var updated := Updated(dev, kind.value, message, parsed, nowIso);
      if kind.value == "online" {
        dev := LiveOnline(dev, message, nowIso);
      } else if parsed.Some? && kind.value == "telemetry" {
        dev := LiveTelemetry(dev, parsed.value, nowIso);
      } else if parsed.Some? {
        dev := LiveEvent(dev, parsed.value, nowIso);
      }
      assert dev == updated;
      devices := devices[id := dev];
      if !Reconciler.HasSelection(selected) {
        selected := Some(id);
      }
      assert State() == OnMessage(before, topic, message, parsed, nowIso);
    }
  }
}
