/** The dashboard client of assets/js/dashboard.js: a roster of devices
    updated by polls and live MQTT messages, the selected device, the
    live event buffer, the merge of live and polled events, and the
    uptime formatter.

    `nowIso` stands for `new Date().toISOString()`. A message that does not
    parse as JSON arrives as None. Ids are ordered by code points where the
    code uses localeCompare. */
module Reconciler {
  import Text
  import Topic
  import opened JsonValue

  /** The part of `state` the logic reads and writes. */
  datatype Ui = Ui(devices: map<string, JsObject>, selected: Option<string>, eventsLive: seq<JsObject>)

  /** The live buffer keeps this many events. */
  const LiveCap: nat := 40

  /** `!state.selected` is false. */
  predicate HasSelection(sel: Option<string>)
  {
    sel.Some? && sel.value != ""
  }

  /** The entry `{ device_id, online: 0 }` created for an unknown device. */
  function NewDevice(id: Json): (o: JsObject)
    ensures o.Keys == {"device_id", "online"} && o["device_id"] == id && o["online"] == JNum(0)
  {
    map["device_id" := id, "online" := JNum(0)]
  }

  // ---------------------------------------------------------------------
  // Polls
  // ---------------------------------------------------------------------

  /** The four fields normalizeDevice coalesces with `d.f || cur.f || null`. */
  const CoalescedFields: set<string> := {"last_seen", "ip", "last_telemetry", "last_event"}

  /** The roster entry normalizeDevice leaves: each coalesced field is
      `d.f || cur.f || null`, `online` is `d.online` when that is a number
      and `cur.online || 0` otherwise, and every other property of the
      current entry stays. */
  function NormalizeEntry(cur: JsObject, d: JsObject): (r: JsObject)
    ensures r.Keys == cur.Keys + CoalescedFields + {"online"}
    ensures forall f :: f in cur && f !in CoalescedFields && f != "online" ==> r[f] == cur[f]
    ensures forall f :: f in CoalescedFields ==> r[f] == OrElse(Or(Get(d, f), Get(cur, f)), JNull)
    ensures r["online"] == if "online" in d && d["online"].JNum? then d["online"] else OrElse(Get(cur, "online"), JNum(0))
  {
    var online := if "online" in d && d["online"].JNum? then d["online"] else OrElse(Get(cur, "online"), JNum(0));
    map f | f in cur.Keys + CoalescedFields + {"online"} ::
      if f == "online" then online
      else if f in CoalescedFields then OrElse(Or(Get(d, f), Get(cur, f)), JNull)
      else cur[f]
  }

  /** The roster key of a polled row: `String(d.device_id)`. */
  function PolledId(d: Json): string
    requires d.JObj? && "device_id" in d.fields
  {
    JsToString(d.fields["device_id"])
  }

  /** normalizeDevice: a polled row without a truthy device_id is
      skipped; otherwise its entry is created if needed and normalized. */
  function Normalize(devices: map<string, JsObject>, d: Json): (r: map<string, JsObject>)
    ensures !Truthy(JsProp(d, "device_id")) ==> r == devices
    ensures Truthy(JsProp(d, "device_id")) ==>
      var id := PolledId(d);
      var cur := if id in devices then devices[id] else NewDevice(d.fields["device_id"]);
      r == devices[id := NormalizeEntry(cur, d.fields)]
  {
    if !Truthy(JsProp(d, "device_id")) then devices
    else
      var id := PolledId(d);
      var cur := if id in devices then devices[id] else NewDevice(d.fields["device_id"]);
      devices[id := NormalizeEntry(cur, d.fields)]
  }

  /** A polled falsy field keeps the current value; a truthy one replaces
      it; the other devices are untouched. */
  lemma NormalizeCoalesces(devices: map<string, JsObject>, d: Json, f: string)
    requires Truthy(JsProp(d, "device_id")) && f in CoalescedFields
    ensures var id := PolledId(d);
      var r := Normalize(devices, d);
      && r.Keys == devices.Keys + {id}
      && (forall k :: k in devices && k != id ==> r[k] == devices[k])
      && (Truthy(JsProp(d, f)) ==> r[id][f] == d.fields[f])
      && (!Truthy(JsProp(d, f)) && id in devices && Truthy(Get(devices[id], f)) ==> r[id][f] == devices[id][f])
      && (!Truthy(JsProp(d, f)) && !(id in devices && Truthy(Get(devices[id], f))) ==> r[id][f] == JNull)
  {
    var id := PolledId(d);
    if id !in devices {
      assert f !in NewDevice(d.fields["device_id"]);
    }
  }

  /** `online` is replaced only by a number. */
  lemma NormalizeOnline(devices: map<string, JsObject>, d: Json)
    requires Truthy(JsProp(d, "device_id"))
    ensures var id := PolledId(d);
      var r := Normalize(devices, d);
      && ("online" in d.fields && d.fields["online"].JNum? ==> r[id]["online"] == d.fields["online"])
      && (!("online" in d.fields && d.fields["online"].JNum?) && id in devices && Truthy(Get(devices[id], "online")) ==>
            r[id]["online"] == devices[id]["online"])
      && (!("online" in d.fields && d.fields["online"].JNum?) && id !in devices ==> r[id]["online"] == JNum(0))
  {
  }

  /** `for (const d of j.devices) normalizeDevice(d)`. */
  function PollAll(devices: map<string, JsObject>, poll: seq<Json>): map<string, JsObject>
    decreases |poll|
  {
    if poll == [] then devices else Normalize(PollAll(devices, poll[..|poll| - 1]), poll[|poll| - 1])
  }

  /** A poll never removes a device. */
  lemma {:induction false} PollKeepsDevices(devices: map<string, JsObject>, poll: seq<Json>)
    ensures PollAll(devices, poll).Keys >= devices.Keys
    decreases |poll|
  {
    if poll != [] {
      PollKeepsDevices(devices, poll[..|poll| - 1]);
    }
  }

  /** Every polled row with a truthy device_id is in the roster afterwards. */
  lemma {:induction false} PollAddsDevices(devices: map<string, JsObject>, poll: seq<Json>)
    ensures forall i :: 0 <= i < |poll| && Truthy(JsProp(poll[i], "device_id")) ==>
      JsToString(poll[i].fields["device_id"]) in PollAll(devices, poll)
    decreases |poll|
  {
    if poll != [] {
      var init := poll[..|poll| - 1];
      PollAddsDevices(devices, init);
      forall i | 0 <= i < |poll| && Truthy(JsProp(poll[i], "device_id"))
        ensures JsToString(poll[i].fields["device_id"]) in PollAll(devices, poll)
      {
        if i < |poll| - 1 {
          assert poll[i] == init[i];
        }
      }
    }
  }

  /** loadDevices' selection: an unset selection, or one the roster does
      not hold, becomes the least id; a valid one stays. */
  ghost predicate ReselectedFrom(before: Option<string>, keys: set<string>, after: Option<string>)
  {
    if keys == {} then after == before
    else if HasSelection(before) && before.value in keys then after == before
    else after.Some? && Text.IsLeast(after.value, keys)
  }

  // ---------------------------------------------------------------------
  // Live messages
  // ---------------------------------------------------------------------

  /** selectDevice: the live buffer is emptied. */
  function Select(ui: Ui, id: string): (r: Ui)
    ensures r.selected == Some(id) && r.eventsLive == [] && r.devices == ui.devices
  {
    Ui(ui.devices, Some(id), [])
  }

  /** The live copy `{ ...evt, device_id: deviceId }`. */
  function LiveCopy(deviceId: string, evt: Json): (e: JsObject)
    ensures "device_id" in e && e["device_id"] == JStr(deviceId)
    ensures e.Keys == {"device_id"} + (if evt.JObj? then evt.fields.Keys else {})
    ensures forall k :: k in e && k != "device_id" ==> evt.JObj? && k in evt.fields && e[k] == evt.fields[k]
    ensures evt.JObj? ==> forall k :: k in evt.fields && k != "device_id" ==> k in e && e[k] == evt.fields[k]
  {
    Spread(evt)["device_id" := JStr(deviceId)]
  }

  /** `[x, ...buf].slice(0, 40)`. */
  function Prepend(x: JsObject, buf: seq<JsObject>): (r: seq<JsObject>)
    ensures |r| == if |buf| < LiveCap then |buf| + 1 else LiveCap
    ensures r[0] == x
    ensures r[1..] == buf[..|r| - 1]
  {
    var b := [x] + buf;
    assert b[1..] == buf;
    if |b| <= LiveCap then b else b[..LiveCap]
  }

  /** pushLiveEvent: only for the selected device and a truthy event; the
      roster entry is updated only if it exists (it is never created). */
  function PushLive(ui: Ui, deviceId: string, evt: Json, nowIso: string): Ui
  {
    if deviceId == "" || !Truthy(Some(evt)) || ui.selected != Some(deviceId) then ui
    else
      var buf := Prepend(LiveCopy(deviceId, evt), ui.eventsLive);
      if deviceId in ui.devices then
        var dev := ui.devices[deviceId];
        var dev' := dev["last_event" := evt]["last_seen" := OrElse(JsProp(evt, "ts"), JStr(nowIso))]["online" := JNum(1)];
        ui.(devices := ui.devices[deviceId := dev'], eventsLive := buf)
      else ui.(eventsLive := buf)
  }

  /** applyLiveTelemetry. */
  function ApplyTelemetry(ui: Ui, deviceId: string, tel: Json, nowIso: string): Ui
  {
    if deviceId == "" || !Truthy(Some(tel)) then ui
    else
      var dev := if deviceId in ui.devices then ui.devices[deviceId] else NewDevice(JStr(deviceId));
      var dev' := dev["last_telemetry" := tel]
                     ["ip" := OrElse(Or(JsProp(tel, "ip"), Get(dev, "ip")), JNull)]
                     ["last_seen" := OrElse(JsProp(tel, "ts"), JStr(nowIso))]
                     ["online" := JNum(1)];
      ui.(devices := ui.devices[deviceId := dev'])
  }

  /** applyOnline. */
  function ApplyOnline(ui: Ui, deviceId: string, on: bool, nowIso: string): Ui
  {
    if deviceId == "" then ui
    else
      var dev := if deviceId in ui.devices then ui.devices[deviceId] else NewDevice(JStr(deviceId));
      ui.(devices := ui.devices[deviceId := dev["online" := JNum(if on then 1 else 0)]["last_seen" := JStr(nowIso)]])
  }

  /** The 'message' handler: route, select the device if none is
      selected, then dispatch; a body that does not parse is dropped. */
  function OnMessage(ui: Ui, topic: string, message: string, parsed: Option<Json>, nowIso: string): Ui
  {
    if !Topic.ClientAccepts(topic) then ui
    else
      var deviceId := Topic.DeviceFromTopic(topic).value;
      var kind := Topic.TypeFromTopic(topic).value;
      var u := if HasSelection(ui.selected) then ui else ui.(selected := Some(deviceId));
      if kind == "online" then ApplyOnline(u, deviceId, Text.Trim(message, Text.JsWhitespace) == "1", nowIso)
      else if parsed.None? then u
      else if kind == "telemetry" then ApplyTelemetry(u, deviceId, parsed.value, nowIso)
      else PushLive(u, deviceId, parsed.value, nowIso)
  }

  // ---------------------------------------------------------------------
  // Properties of the live updates
  // ---------------------------------------------------------------------

  /** An event for a device other than the selected one changes nothing. */
  lemma PushIgnoresOtherDevices(ui: Ui, deviceId: string, evt: Json, nowIso: string)
    requires ui.selected != Some(deviceId)
    ensures PushLive(ui, deviceId, evt, nowIso) == ui
  {
  }

  /** An accepted event is put first, the older ones follow in order, and
      the buffer never holds more than 40. */
  lemma PushNewestFirst(ui: Ui, deviceId: string, evt: Json, nowIso: string)
    requires |ui.eventsLive| <= LiveCap
    requires deviceId != "" && Truthy(Some(evt)) && ui.selected == Some(deviceId)
    ensures var r := PushLive(ui, deviceId, evt, nowIso).eventsLive;
      && 1 <= |r| <= LiveCap
      && r[0] == LiveCopy(deviceId, evt)
      && r[1..] == ui.eventsLive[..|r| - 1]
  {
  }

  /** `events.map(e => ({ ...e, device_id }))` in reverse order: what a run
      of pushes leaves at the front of the buffer. */
  function NewestFirst(deviceId: string, es: seq<Json>): (r: seq<JsObject>)
    ensures |r| == |es|
    decreases |es|
  {
    if es == [] then [] else [LiveCopy(deviceId, es[|es| - 1])] + NewestFirst(deviceId, es[..|es| - 1])
  }

  /** A run of pushes for the selected device. */
  function PushAll(ui: Ui, deviceId: string, es: seq<Json>, nowIso: string): Ui
    decreases |es|
  {
    if es == [] then ui else PushLive(PushAll(ui, deviceId, es[..|es| - 1], nowIso), deviceId, es[|es| - 1], nowIso)
  }

  /** What a push does to the buffer when it is taken. */
  lemma PushBuffer(ui: Ui, deviceId: string, evt: Json, nowIso: string)
    requires deviceId != "" && Truthy(Some(evt)) && ui.selected == Some(deviceId)
    ensures PushLive(ui, deviceId, evt, nowIso).eventsLive == Prepend(LiveCopy(deviceId, evt), ui.eventsLive)
    ensures PushLive(ui, deviceId, evt, nowIso).selected == ui.selected
  {
  }

  /** The newest `LiveCap` entries of a list. */
  function Newest(all: seq<JsObject>): (r: seq<JsObject>)
    ensures |r| <= LiveCap && |r| <= |all| && r == all[..|r|]
    ensures |r| == if |all| < LiveCap then |all| else LiveCap
  {
    all[..if |all| < LiveCap then |all| else LiveCap]
  }

  /** Putting x in front of the newest 40 of `all` gives the newest 40 of
      `[x] + all`. */
  lemma PrependTake(x: JsObject, all: seq<JsObject>, buf: seq<JsObject>)
    requires buf == Newest(all)
    ensures Prepend(x, buf) == Newest([x] + all)
  {
    var all' := [x] + all;
    var r := Prepend(x, buf);
    var n := if |all'| < LiveCap then |all'| else LiveCap;
    assert |r| == n;
    forall i | 0 <= i < n ensures r[i] == all'[i] {
      if i > 0 {
        assert r[i] == r[1..][i - 1] == buf[i - 1];
      }
    }
  }

  /** After a run of truthy events for the selected device, the buffer is
      the newest 40 of them and of what it held before, newest first. */
  lemma {:induction false} PushAllKeepsNewest(ui: Ui, deviceId: string, es: seq<Json>, nowIso: string)
    requires deviceId != "" && ui.selected == Some(deviceId)
    requires |ui.eventsLive| <= LiveCap
    requires forall i :: 0 <= i < |es| ==> Truthy(Some(es[i]))
    ensures PushAll(ui, deviceId, es, nowIso).eventsLive == Newest(NewestFirst(deviceId, es) + ui.eventsLive)
    ensures PushAll(ui, deviceId, es, nowIso).selected == ui.selected
    decreases |es|
  {
    if es == [] {
      assert NewestFirst(deviceId, es) + ui.eventsLive == ui.eventsLive;
    } else {
      var init := es[..|es| - 1];
      assert forall i :: 0 <= i < |init| ==> init[i] == es[i];
      PushAllKeepsNewest(ui, deviceId, init, nowIso);
      PushAllStep(ui, deviceId, es, nowIso);
    }
  }

  lemma PushAllStep(ui: Ui, deviceId: string, es: seq<Json>, nowIso: string)
    requires deviceId != "" && es != [] && Truthy(Some(es[|es| - 1]))
    requires PushAll(ui, deviceId, es[..|es| - 1], nowIso).eventsLive == Newest(NewestFirst(deviceId, es[..|es| - 1]) + ui.eventsLive)
    requires PushAll(ui, deviceId, es[..|es| - 1], nowIso).selected == Some(deviceId)
    ensures PushAll(ui, deviceId, es, nowIso).eventsLive == Newest(NewestFirst(deviceId, es) + ui.eventsLive)
    ensures PushAll(ui, deviceId, es, nowIso).selected == Some(deviceId)
  {
    var init := es[..|es| - 1];
    var last := es[|es| - 1];
    var prev := PushAll(ui, deviceId, init, nowIso);
    PushBuffer(prev, deviceId, last, nowIso);
    var allPrev := NewestFirst(deviceId, init) + ui.eventsLive;
    assert NewestFirst(deviceId, es) + ui.eventsLive == [LiveCopy(deviceId, last)] + allPrev;
    PrependTake(LiveCopy(deviceId, last), allPrev, prev.eventsLive);
  }

  /** Live telemetry: the device exists afterwards, its last_telemetry is
      the message, online is 1, ip is coalesced, and last_event is left
      alone (a new entry starts from `{ device_id, online: 0 }`). */
  lemma TelemetryUpdatesRoster(ui: Ui, deviceId: string, tel: Json, nowIso: string)
    requires deviceId != "" && Truthy(Some(tel))
    ensures var r := ApplyTelemetry(ui, deviceId, tel, nowIso);
      var before := if deviceId in ui.devices then ui.devices[deviceId] else NewDevice(JStr(deviceId));
      && r.devices.Keys == ui.devices.Keys + {deviceId}
      && r.devices[deviceId]["last_telemetry"] == tel
      && r.devices[deviceId]["online"] == JNum(1)
      && (Truthy(JsProp(tel, "ip")) ==> r.devices[deviceId]["ip"] == tel.fields["ip"])
      && (!Truthy(JsProp(tel, "ip")) && Truthy(Get(before, "ip")) ==> r.devices[deviceId]["ip"] == before["ip"])
      && Get(r.devices[deviceId], "last_event") == Get(before, "last_event")
      && r.selected == ui.selected && r.eventsLive == ui.eventsLive
      && (forall k :: k in ui.devices && k != deviceId ==> r.devices[k] == ui.devices[k])
  {
  }

  /** An online message sets only online and last_seen. */
  lemma OnlineUpdatesRoster(ui: Ui, deviceId: string, on: bool, nowIso: string)
    requires deviceId != ""
    ensures var r := ApplyOnline(ui, deviceId, on, nowIso);
      var before := if deviceId in ui.devices then ui.devices[deviceId] else NewDevice(JStr(deviceId));
      && r.devices.Keys == ui.devices.Keys + {deviceId}
      && r.devices[deviceId]["online"] == JNum(if on then 1 else 0)
      && r.devices[deviceId]["last_seen"] == JStr(nowIso)
      && (forall f :: f in before && f != "online" && f != "last_seen" ==> r.devices[deviceId][f] == before[f])
      && r.devices[deviceId].Keys == before.Keys + {"online", "last_seen"}
  {
  }

  /** The handler drops a message whose topic it does not accept; it
      accepts exactly the topics the worker routes to the same device and
      kind, those whose fourth segment is literally "online" aside
      (Topic.RoutersAgree). */
  lemma MessageDropped(ui: Ui, topic: string, message: string, parsed: Option<Json>, nowIso: string)
    requires !Topic.ClientAccepts(topic)
    ensures OnMessage(ui, topic, message, parsed, nowIso) == ui
  {
  }

  /** The first accepted message selects its device when nothing is
      selected. */
  lemma MessageSelectsFirst(ui: Ui, topic: string, message: string, parsed: Option<Json>, nowIso: string)
    requires Topic.ClientAccepts(topic) && !HasSelection(ui.selected)
    ensures OnMessage(ui, topic, message, parsed, nowIso).selected == Some(Topic.ParseTopic(topic).0)
  {
    Topic.RoutersAgree(topic);
    var deviceId := Topic.DeviceFromTopic(topic).value;
    UpdatesKeepSelection(ui.(selected := Some(deviceId)), deviceId, message, parsed, nowIso);
  }

  /** An accepted message never changes an existing selection. */
  lemma MessageKeepsSelection(ui: Ui, topic: string, message: string, parsed: Option<Json>, nowIso: string)
    requires Topic.ClientAccepts(topic) && HasSelection(ui.selected)
    ensures OnMessage(ui, topic, message, parsed, nowIso).selected == ui.selected
  {
    UpdatesKeepSelection(ui, Topic.DeviceFromTopic(topic).value, message, parsed, nowIso);
  }

  /** None of the three updates touches the selection. */
  lemma UpdatesKeepSelection(u: Ui, deviceId: string, message: string, parsed: Option<Json>, nowIso: string)
    ensures ApplyOnline(u, deviceId, Text.Trim(message, Text.JsWhitespace) == "1", nowIso).selected == u.selected
    ensures parsed.Some? ==> ApplyTelemetry(u, deviceId, parsed.value, nowIso).selected == u.selected
    ensures parsed.Some? ==> PushLive(u, deviceId, parsed.value, nowIso).selected == u.selected
  {
  }

  // ---------------------------------------------------------------------
  // The merged event list of renderEventsList
  // ---------------------------------------------------------------------

  /** A merged entry: its key, the copied event and the `_live` flag. */
  datatype Tagged = Tagged(key: string, body: JsObject, live: bool)

  /** The text of `x + ''` for a value that may be undefined. */
  function ConcatText(v: Option<Json>): string
  {
    if v.None? then "undefined" else JsToString(v.value)
  }

  /** `(e.ts || '') + '|' + (e.device_id || '')` for a live entry. */
  function LiveKey(e: JsObject): string
  {
    TextOrEmpty(Get(e, "ts")) + "|" + TextOrEmpty(Get(e, "device_id"))
  }

  /** `(e.ts || '') + '|' + dev.device_id` for a polled entry. */
  function DbKey(e: JsObject, devId: string): string
  {
    TextOrEmpty(Get(e, "ts")) + "|" + devId
  }

  function TagLive(es: seq<JsObject>): (r: seq<Tagged>)
    ensures |r| == |es|
    ensures forall i :: 0 <= i < |es| ==> r[i] == Tagged(LiveKey(es[i]), es[i], true)
  {
    seq(|es|, i requires 0 <= i < |es| => Tagged(LiveKey(es[i]), es[i], true))
  }

  function TagDb(es: seq<JsObject>, devId: string): (r: seq<Tagged>)
    ensures |r| == |es|
    ensures forall i :: 0 <= i < |es| ==> r[i] == Tagged(DbKey(es[i], devId), es[i], false)
  {
    seq(|es|, i requires 0 <= i < |es| => Tagged(DbKey(es[i], devId), es[i], false))
  }

  function Keys(items: seq<Tagged>): (ks: set<string>)
    ensures forall i :: 0 <= i < |items| ==> items[i].key in ks
    ensures forall k :: k in ks ==> exists i :: 0 <= i < |items| && items[i].key == k
  {
    set i | 0 <= i < |items| :: items[i].key
  }

  lemma KeysCons(x: Tagged, rest: seq<Tagged>)
    ensures Keys([x] + rest) == {x.key} + Keys(rest)
  {
    var r := [x] + rest;
    assert r[0] == x;
    forall k | k in Keys(r) ensures k in {x.key} + Keys(rest) {
      var i :| 0 <= i < |r| && r[i].key == k;
      if i > 0 { assert r[i] == rest[i - 1]; }
    }
    forall k | k in Keys(rest) ensures k in Keys(r) {
      var i :| 0 <= i < |rest| && rest[i].key == k;
      assert r[i + 1] == rest[i];
    }
  }

  lemma KeysAppend(a: seq<Tagged>, b: seq<Tagged>)
    ensures Keys(a + b) == Keys(a) + Keys(b)
  {
    forall k | k in Keys(a + b) ensures k in Keys(a) + Keys(b) {
      var i :| 0 <= i < |a + b| && (a + b)[i].key == k;
      if i >= |a| { assert (a + b)[i] == b[i - |a|]; }
    }
    forall k | k in Keys(a) + Keys(b) ensures k in Keys(a + b) {
      if k in Keys(a) {
        var i :| 0 <= i < |a| && a[i].key == k;
        assert (a + b)[i] == a[i];
      } else {
        var i :| 0 <= i < |b| && b[i].key == k;
        assert (a + b)[|a| + i] == b[i];
      }
    }
  }

  /** The first entry of every key not yet seen, in order. */
  function Dedup(items: seq<Tagged>, seen: set<string>): (r: seq<Tagged>)
    ensures |r| <= |items|
    ensures forall i :: 0 <= i < |r| ==> r[i].key !in seen
    decreases |items|
  {
    if items == [] then []
    else if items[0].key in seen then Dedup(items[1..], seen)
    else [items[0]] + Dedup(items[1..], seen + {items[0].key})
  }

  lemma DedupStep(items: seq<Tagged>, i: nat, seen: set<string>)
    requires i < |items|
    ensures Dedup(items[i..], seen) ==
      if items[i].key in seen then Dedup(items[i + 1..], seen)
      else [items[i]] + Dedup(items[i + 1..], seen + {items[i].key})
  {
    assert items[i..][0] == items[i] && items[i..][1..] == items[i + 1..];
  }

  /** One step of a loop that builds Dedup(items, {}) entry by entry. */
  lemma DedupAdvance(items: seq<Tagged>, k: nat, combined: seq<Tagged>, seen: set<string>, target: seq<Tagged>)
    requires k < |items|
    requires combined + Dedup(items[k..], seen) == target
    ensures items[k].key in seen ==> combined + Dedup(items[k + 1..], seen) == target
    ensures items[k].key !in seen ==>
      combined + [items[k]] + Dedup(items[k + 1..], seen + {items[k].key}) == target
  {
    DedupStep(items, k, seen);
    if items[k].key !in seen {
      assert combined + [items[k]] + Dedup(items[k + 1..], seen + {items[k].key})
          == combined + ([items[k]] + Dedup(items[k + 1..], seen + {items[k].key}));
    }
  }

  /** `xs.slice(0, end)`: a negative end counts from the back. */
  function JsSliceTo<T>(xs: seq<T>, end: int): (r: seq<T>)
    ensures end >= 0 ==> |r| == if end < |xs| then end else |xs|
    ensures end < 0 ==> |r| == if |xs| + end > 0 then |xs| + end else 0
    ensures r == xs[..|r|]
  {
    var e := if end < 0 then (if |xs| + end > 0 then |xs| + end else 0) else (if end < |xs| then end else |xs|);
    xs[..e]
  }

  /** renderEventsList's list: None when no known device is selected
      ("Select a device"); otherwise the first `limit` entries of the
      de-duplicated live-then-polled list. */
  function Merged(ui: Ui, db: seq<JsObject>, limit: int): Option<seq<Tagged>>
  {
    if !HasSelection(ui.selected) || ui.selected.value !in ui.devices then None
    else
      var devId := ConcatText(Get(ui.devices[ui.selected.value], "device_id"));
      Some(JsSliceTo(Dedup(TagLive(ui.eventsLive) + TagDb(db, devId), {}), limit))
  }

  /** `a` is `b` with some entries left out. */
  predicate IsSubsequence(a: seq<Tagged>, b: seq<Tagged>)
    decreases |b|
  {
    if a == [] then true
    else if b == [] then false
    else if a[0] == b[0] then IsSubsequence(a[1..], b[1..])
    else IsSubsequence(a, b[1..])
  }

  /** A subsequence of a tail is a subsequence of the whole. */
  lemma {:induction false} SubsequenceSkip(a: seq<Tagged>, b: seq<Tagged>)
    requires b != [] && IsSubsequence(a, b[1..])
    ensures IsSubsequence(a, b)
    decreases |b|, 0
  {
    if a != [] && a[0] == b[0] {
      SubsequenceDrop(a, b[1..]);
    }
  }

  /** Dropping the first entry of a subsequence keeps it one. */
  lemma {:induction false} SubsequenceDrop(a: seq<Tagged>, c: seq<Tagged>)
    requires a != [] && IsSubsequence(a, c)
    ensures IsSubsequence(a[1..], c)
    decreases |c|, 1
  {
    if a[0] == c[0] {
      SubsequenceSkip(a[1..], c);
    } else {
      SubsequenceDrop(a, c[1..]);
      SubsequenceSkip(a[1..], c);
    }
  }

  /** Dedup only leaves entries out. */
  lemma {:induction false} DedupSubsequence(items: seq<Tagged>, seen: set<string>)
    ensures IsSubsequence(Dedup(items, seen), items)
    decreases |items|
  {
    if items != [] {
      var x := items[0];
      if x.key in seen {
        DedupSubsequence(items[1..], seen);
        SubsequenceSkip(Dedup(items[1..], seen), items);
      } else {
        DedupSubsequence(items[1..], seen + {x.key});
        var r := Dedup(items, seen);
        assert r[0] == x && r[1..] == Dedup(items[1..], seen + {x.key});
      }
    }
  }

  /** No entry whose key was already seen survives. */
  lemma {:induction false} DedupUnseen(items: seq<Tagged>, seen: set<string>)
    ensures forall i :: 0 <= i < |Dedup(items, seen)| ==> Dedup(items, seen)[i].key !in seen
    decreases |items|
  {
    if items != [] {
      var x := items[0];
      if x.key in seen {
        DedupUnseen(items[1..], seen);
        assert Dedup(items, seen) == Dedup(items[1..], seen);
      } else {
        var rest := Dedup(items[1..], seen + {x.key});
        DedupUnseen(items[1..], seen + {x.key});
        var r := [x] + rest;
        assert r == Dedup(items, seen);
        forall i | 0 <= i < |r| ensures r[i].key !in seen {
          if i > 0 { assert r[i] == rest[i - 1]; }
        }
      }
    }
  }

  /** Every key appears at most once in the result. */
  lemma {:induction false} DedupDistinct(items: seq<Tagged>, seen: set<string>)
    ensures forall i, j :: 0 <= i < j < |Dedup(items, seen)| ==>
      Dedup(items, seen)[i].key != Dedup(items, seen)[j].key
    decreases |items|
  {
    if items != [] {
      var x := items[0];
      if x.key in seen {
        DedupDistinct(items[1..], seen);
        assert Dedup(items, seen) == Dedup(items[1..], seen);
      } else {
        var rest := Dedup(items[1..], seen + {x.key});
        DedupDistinct(items[1..], seen + {x.key});
        DedupUnseen(items[1..], seen + {x.key});
        var r := [x] + rest;
        assert r == Dedup(items, seen);
        forall i, j | 0 <= i < j < |r| ensures r[i].key != r[j].key {
          if i > 0 {
            assert r[i] == rest[i - 1] && r[j] == rest[j - 1];
          } else {
            assert r[j] == rest[j - 1];
          }
        }
      }
    }
  }

  /** Every key not already seen keeps exactly one entry. */
  lemma {:induction false} DedupKeys(items: seq<Tagged>, seen: set<string>)
    ensures Keys(Dedup(items, seen)) == Keys(items) - seen
    decreases |items|
  {
    if items != [] {
      var x := items[0];
      assert items == [x] + items[1..];
      KeysCons(x, items[1..]);
      if x.key in seen {
        DedupKeys(items[1..], seen);
      } else {
        var rest := Dedup(items[1..], seen + {x.key});
        DedupKeys(items[1..], seen + {x.key});
        KeysCons(x, rest);
      }
    }
  }

  /** The keys seen after scanning `items`. */
  function SeenAfter(items: seq<Tagged>, seen: set<string>): set<string>
    decreases |items|
  {
    if items == [] then seen else SeenAfter(items[1..], seen + {items[0].key})
  }

  lemma {:induction false} SeenAfterKeys(items: seq<Tagged>, seen: set<string>)
    ensures SeenAfter(items, seen) == seen + Keys(items)
    decreases |items|
  {
    if items == [] {
      assert Keys(items) == {};
    } else {
      var x := items[0];
      SeenAfterKeys(items[1..], seen + {x.key});
      assert items == [x] + items[1..];
      KeysCons(x, items[1..]);
    }
  }

  /** De-duplicating a concatenation is de-duplicating the first part, then
      the second part against every key of the first. */
  lemma DedupAppend(a: seq<Tagged>, b: seq<Tagged>, seen: set<string>)
    ensures Dedup(a + b, seen) == Dedup(a, seen) + Dedup(b, seen + Keys(a))
  {
    DedupAppendScan(a, b, seen);
    SeenAfterKeys(a, seen);
  }

  lemma {:induction false} DedupAppendScan(a: seq<Tagged>, b: seq<Tagged>, seen: set<string>)
    ensures Dedup(a + b, seen) == Dedup(a, seen) + Dedup(b, SeenAfter(a, seen))
    decreases |a|
  {
    if a == [] {
      assert a + b == b;
    } else {
      var x := a[0];
      assert (a + b)[0] == x && (a + b)[1..] == a[1..] + b;
      if x.key in seen {
        DedupAppendScan(a[1..], b, seen);
        assert seen + {x.key} == seen;
      } else {
        DedupAppendScan(a[1..], b, seen + {x.key});
      }
    }
  }

  /** The merged list: every key at most once; the live entries first, in
      buffer order and each the first live entry of its key; then the
      polled entries, in their order, without any whose key a live entry
      already has; every key of either source appears. */
  lemma MergedProperties(live: seq<JsObject>, db: seq<JsObject>, devId: string)
    ensures var l := TagLive(live);
      var d := TagDb(db, devId);
      var r := Dedup(l + d, {});
      && r == Dedup(l, {}) + Dedup(d, Keys(l))
      && (forall i, j :: 0 <= i < j < |r| ==> r[i].key != r[j].key)
      && (forall i, j :: 0 <= i < j < |r| && r[j].live ==> r[i].live)
      && IsSubsequence(Dedup(l, {}), l)
      && IsSubsequence(Dedup(d, Keys(l)), d)
      && (forall i :: 0 <= i < |r| && !r[i].live ==> r[i].key !in Keys(l))
      && Keys(r) == Keys(l) + Keys(d)
  {
    var l := TagLive(live);
    var d := TagDb(db, devId);
    MergeSplit(l, d);
    MergeOrder(l, d);
  }

  /** Splitting the merge at the boundary between the two sources. */
  lemma MergeSplit(l: seq<Tagged>, d: seq<Tagged>)
    ensures var r := Dedup(l + d, {});
      && r == Dedup(l, {}) + Dedup(d, Keys(l))
      && (forall i, j :: 0 <= i < j < |r| ==> r[i].key != r[j].key)
      && IsSubsequence(Dedup(l, {}), l)
      && IsSubsequence(Dedup(d, Keys(l)), d)
      && Keys(r) == Keys(l) + Keys(d)
  {
    DedupAppend(l, d, {});
    assert {} + Keys(l) == Keys(l);
    DedupDistinct(l + d, {});
    DedupSubsequence(l, {});
    DedupSubsequence(d, Keys(l));
    DedupKeys(l + d, {});
    KeysAppend(l, d);
  }

  /** With every live entry ahead of every polled one, the live entries of
      the merge come first and no polled entry repeats a live key. */
  lemma MergeOrder(l: seq<Tagged>, d: seq<Tagged>)
    requires forall i :: 0 <= i < |l| ==> l[i].live
    requires forall i :: 0 <= i < |d| ==> !d[i].live
    ensures var r := Dedup(l + d, {});
      && (forall i, j :: 0 <= i < j < |r| && r[j].live ==> r[i].live)
      && (forall i :: 0 <= i < |r| && !r[i].live ==> r[i].key !in Keys(l))
  {
    DedupAppend(l, d, {});
    assert {} + Keys(l) == Keys(l);
    var r1 := Dedup(l, {});
    var r2 := Dedup(d, Keys(l));
    var r := Dedup(l + d, {});
    assert r == r1 + r2;
    DedupSubsequence(l, {});
    DedupSubsequence(d, Keys(l));
    DedupUnseen(d, Keys(l));
    SubsequenceFlag(r1, l, true);
    SubsequenceFlag(r2, d, false);
    forall i, j | 0 <= i < j < |r| && r[j].live ensures r[i].live {
      if j < |r1| {
        assert r[i] == r1[i];
      }
    }
    forall i | 0 <= i < |r| && !r[i].live ensures r[i].key !in Keys(l) {
      if i >= |r1| {
        assert r[i] == r2[i - |r1|];
      }
    }
  }

  /** A subsequence of entries that all carry one flag carries it too. */
  lemma {:induction false} SubsequenceFlag(a: seq<Tagged>, b: seq<Tagged>, flag: bool)
    requires IsSubsequence(a, b)
    requires forall i :: 0 <= i < |b| ==> b[i].live == flag
    ensures forall i :: 0 <= i < |a| ==> a[i].live == flag
    decreases |b|
  {
    if a != [] && b != [] {
      if a[0] == b[0] {
        SubsequenceFlag(a[1..], b[1..], flag);
        assert forall i :: 1 <= i < |a| ==> a[i] == a[1..][i - 1];
      } else {
        SubsequenceFlag(a, b[1..], flag);
      }
    }
  }

  // ---------------------------------------------------------------------
  // fmtUptime
  // ---------------------------------------------------------------------

  /** `${n}` for the small non-negative counts of fmtUptime. */
  function Num(n: nat): string
  {
    Text.NatToString(n)
  }

  /** fmtUptime: '—' for anything but a number; otherwise the whole
      seconds (negative ones count as 0) as days, hours and minutes, with
      days shown only when non-zero and hours only when days or hours are. */
  function FmtUptime(s: Json): (r: string)
    ensures !s.JNum? ==> r == "—"
    ensures s.JNum? ==> |r| >= 2 && r[|r| - 1] == 'm' && Text.IsDigit(r[0])
  {
    if !s.JNum? then "—"
    else
      var sec: nat := if s.n < 0 then 0 else s.n;
      var d := sec / 86400;
      var h := (sec % 86400) / 3600;
      var m := (sec % 3600) / 60;
      if d > 0 then Num(d) + "d " + Num(h) + "h " + Num(m) + "m"
      else if h > 0 then Num(h) + "h " + Num(m) + "m"
      else Num(m) + "m"
  }

  /** The three fields split the whole seconds exactly: hours below 24,
      minutes below 60, and only the leftover seconds are dropped. */
  lemma UptimeParts(sec: nat)
    ensures var d := sec / 86400;
      var h := (sec % 86400) / 3600;
      var m := (sec % 3600) / 60;
      && h < 24 && m < 60
      && d * 86400 + h * 3600 + m * 60 + sec % 60 == sec
  {
    var d := sec / 86400;
    var r := sec % 86400;
    var h := r / 3600;
    assert sec == d * 86400 + r;
    assert r == h * 3600 + r % 3600;
    assert sec % 3600 == r % 3600 by {
      assert sec == (d * 24) * 3600 + r;
    }
    assert sec % 3600 == (sec % 3600) / 60 * 60 + sec % 60 by {
      assert sec == (sec / 3600) * 60 * 60 + sec % 3600;
    }
  }

  /** An uptime under an hour prints minutes alone; under a day, hours and
      minutes; from a day on, all three. */
  lemma UptimeShape(n: nat)
    ensures n < 3600 ==> FmtUptime(JNum(n)) == Num(n / 60) + "m"
    ensures 3600 <= n < 86400 ==> FmtUptime(JNum(n)) == Num(n / 3600) + "h " + Num((n % 3600) / 60) + "m"
    ensures 86400 <= n ==>
      FmtUptime(JNum(n)) == Num(n / 86400) + "d " + Num((n % 86400) / 3600) + "h " + Num((n % 3600) / 60) + "m"
  {
    if n < 3600 {
      assert n / 86400 == 0 && n % 86400 == n && n / 3600 == 0 && n % 3600 == n;
    } else if n < 86400 {
      assert n / 86400 == 0 && n % 86400 == n && n / 3600 > 0;
    } else {
      assert n / 86400 > 0;
    }
  }

  // ---------------------------------------------------------------------
  // The dashboard state as the code mutates it
  // ---------------------------------------------------------------------

  class Dashboard {
    var devices: map<string, JsObject>
    var selected: Option<string>
    var eventsLive: seq<JsObject>

    function State(): Ui
      reads this
    {
      Ui(devices, selected, eventsLive)
    }

    /** The buffer never holds more than 40 entries. */
    ghost predicate Valid()
      reads this
    {
      |eventsLive| <= LiveCap
    }

    /** `selected: localStorage.getItem('iot_selected') || null`. */
    constructor (stored: Option<string>)
      ensures State() == Ui(map[], if stored.Some? && stored.value != "" then stored else None, [])
      ensures Valid()
    {
      devices := map[];
      selected := if stored.Some? && stored.value != "" then stored else None;
      eventsLive := [];
    }

    method NormalizeDevice(d: Json)
      modifies this
      ensures devices == Normalize(old(devices), d)
      ensures selected == old(selected) && eventsLive == old(eventsLive)
    {
      devices := Normalize(devices, d);
    }

    /** loadDevices after a successful fetch. The live buffer is not
        cleared even when the selection falls back to another device. */
    method LoadDevices(poll: seq<Json>)
      requires Valid()
      modifies this
      ensures devices == PollAll(old(devices), poll)
      ensures ReselectedFrom(old(selected), devices.Keys, selected)
      ensures eventsLive == old(eventsLive) && Valid()
    {
      var i := 0;
      while i < |poll|
        invariant 0 <= i <= |poll|
        invariant devices == PollAll(old(devices), poll[..i])
        invariant selected == old(selected) && eventsLive == old(eventsLive)
      {
        assert poll[..i + 1][..i] == poll[..i];
        NormalizeDevice(poll[i]);
        i := i + 1;
      }
      assert poll[..i] == poll;
      if devices.Keys != {} && !(HasSelection(selected) && selected.value in devices) {
        var first := Text.Smallest(devices.Keys);
        selected := Some(first);
      }
    }

    method SelectDevice(id: string)
      modifies this
      ensures State() == Select(old(State()), id) && Valid()
    {
      selected := Some(id);
      eventsLive := [];
    }

    /** The Clear button. */
    method ClearLive()
      modifies this
      ensures eventsLive == [] && devices == old(devices) && selected == old(selected)
    {
      eventsLive := [];
    }

    method PushLiveEvent(deviceId: string, evt: Json, nowIso: string)
      requires Valid()
      modifies this
      ensures State() == PushLive(old(State()), deviceId, evt, nowIso) && Valid()
    {
      if deviceId == "" || !Truthy(Some(evt)) {
        return;
      }
      if selected != Some(deviceId) {
        return;
      }
      eventsLive := [LiveCopy(deviceId, evt)] + eventsLive;
      if |eventsLive| > LiveCap {
        eventsLive := eventsLive[..LiveCap];
      }
      if deviceId in devices {
        var dev := devices[deviceId];
        dev := dev["last_event" := evt];
        dev := dev["last_seen" := OrElse(JsProp(evt, "ts"), JStr(nowIso))];
        dev := dev["online" := JNum(1)];
        devices := devices[deviceId := dev];
      }
    }

    method ApplyLiveTelemetry(deviceId: string, tel: Json, nowIso: string)
      modifies this
      ensures State() == ApplyTelemetry(old(State()), deviceId, tel, nowIso)
    {
      if deviceId == "" || !Truthy(Some(tel)) {
        return;
      }
      if deviceId !in devices {
        devices := devices[deviceId := NewDevice(JStr(deviceId))];
      }
      var dev := devices[deviceId];
      dev := dev["last_telemetry" := tel];
      dev := dev["ip" := OrElse(Or(JsProp(tel, "ip"), Get(dev, "ip")), JNull)];
      dev := dev["last_seen" := OrElse(JsProp(tel, "ts"), JStr(nowIso))];
      dev := dev["online" := JNum(1)];
      devices := devices[deviceId := dev];
    }

    method ApplyOnlineStatus(deviceId: string, on: bool, nowIso: string)
      modifies this
      ensures State() == ApplyOnline(old(State()), deviceId, on, nowIso)
    {
      if deviceId == "" {
        return;
      }
      if deviceId !in devices {
        devices := devices[deviceId := NewDevice(JStr(deviceId))];
      }
      var dev := devices[deviceId];
      dev := dev["online" := JNum(if on then 1 else 0)];
      dev := dev["last_seen" := JStr(nowIso)];
      devices := devices[deviceId := dev];
    }

    method HandleMessage(topic: string, message: string, parsed: Option<Json>, nowIso: string)
      requires Valid()
      modifies this
      ensures State() == OnMessage(old(State()), topic, message, parsed, nowIso) && Valid()
    {
      var deviceId := Topic.DeviceFromTopic(topic);
      var kind := Topic.TypeFromTopic(topic);
      if deviceId.None? || deviceId.value == "" || kind.None? {
        return;
      }
      ghost var before := State();
      if !HasSelection(selected) {
        selected := deviceId;
      }
      ghost var u := State();
      assert u == if HasSelection(before.selected) then before else before.(selected := deviceId);
      assert Topic.ClientAccepts(topic);
      if kind.value == "online" {
        ApplyOnlineStatus(deviceId.value, Text.Trim(message, Text.JsWhitespace) == "1", nowIso);
        assert |eventsLive| == |u.eventsLive|;
        return;
      }
      if parsed.None? {
        return;
      }
      if kind.value == "telemetry" {
        ApplyLiveTelemetry(deviceId.value, parsed.value, nowIso);
        assert |eventsLive| == |u.eventsLive|;
      } else {
        PushLiveEvent(deviceId.value, parsed.value, nowIso);
      }
    }

    /** The list renderEventsList draws, built with its `seen` set and
        `combined` array. */
    method MergeEvents(db: seq<JsObject>, limit: int) returns (shown: Option<seq<Tagged>>)
      ensures shown == Merged(State(), db, limit)
    {
      if !HasSelection(selected) || selected.value !in devices {
        return None;
      }
      var devId := ConcatText(Get(devices[selected.value], "device_id"));
      ghost var items := TagLive(eventsLive) + TagDb(db, devId);
      ghost var target := Dedup(items, {});
      var combined: seq<Tagged> := [];
      var seen: set<string> := {};
      var i := 0;
      while i < |eventsLive|
        invariant 0 <= i <= |eventsLive|
        invariant combined + Dedup(items[i..], seen) == target
      {
        var entry := Tagged(LiveKey(eventsLive[i]), eventsLive[i], true);
        assert items[i] == entry;
        DedupAdvance(items, i, combined, seen, target);
        if entry.key !in seen {
          combined := combined + [entry];
          seen := seen + {entry.key};
        }
        i := i + 1;
      }
      ghost var d := TagDb(db, devId);
      assert items[i..] == d;
      var j := 0;
      while j < |db|
        invariant 0 <= j <= |db|
        invariant combined + Dedup(d[j..], seen) == target
      {
        var entry := Tagged(DbKey(db[j], devId), db[j], false);
        DedupAdvance(d, j, combined, seen, target);
        if entry.key !in seen {
          combined := combined + [entry];
          seen := seen + {entry.key};
        }
        j := j + 1;
      }
      assert d[j..] == [];
      assert combined == target;
      return Some(JsSliceTo(combined, limit));
    }
  }
}
