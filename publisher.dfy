/** The device publisher's bookkeeping (class Publisher of send_data.py):
    the frame signature, the event rate limit kept in `last_sig` and
    `last_event`, the event payload, and `publish_or_spool`, which falls
    back on the spool when the broker is not reachable.

    sha1, JSON encoding and the clock are parameters: `hash` is sha1 of
    the signature text, `dumps` the compact JSON text a payload is sent
    as, `encode` the JSON line a spooled record is written as. Times are
    whole seconds. Camera, detection, snapshots and the upload request
    are not modelled; what they return is an input of the frame. */
module Publisher {
  import Text
  import opened JsonValue
  import Ingest
  import Spool

  /** One detection as Vision.detect reports it; conf and box are passed
      through to the payload untouched. */
  datatype Detection = Detection(name: string, conf: Json, box: Json)

  /** The detection labels, in detection order. */
  function Labels(ds: seq<Detection>): (r: seq<string>)
    ensures |r| == |ds|
    ensures forall i :: 0 <= i < |ds| ==> r[i] == ds[i].name
  {
    seq(|ds|, i requires 0 <= i < |ds| => ds[i].name)
  }

  // ---------------------------------------------------------------------
  // signature
  // ---------------------------------------------------------------------

  ghost function LabelSet(labels: seq<string>): set<string>
  {
    set l | l in labels
  }

  /** "faces:N", then "label:count" for each key in the given order. */
  function Parts(faces: int, keys: seq<string>, counts: multiset<string>): seq<string>
  {
    ["faces:" + Text.IntToString(faces)]
      + seq(|keys|, i requires 0 <= i < |keys| => keys[i] + ":" + Text.NatToString(counts[keys[i]]))
  }

  /** The text `signature` hashes: the parts for the distinct labels in
      ascending order, joined by "|". */
  ghost function SignatureText(faces: int, labels: seq<string>): string
  {
    Text.Join(Parts(faces, Text.SortedMembers(LabelSet(labels)), multiset(labels)), '|')
  }

  /** The `counts` dictionary: one entry per distinct label, holding how
      often it occurs. */
  method CountLabels(labels: seq<string>) returns (counts: map<string, nat>)
    ensures forall k :: k in counts <==> k in labels
    ensures forall k :: k in counts ==> counts[k] == multiset(labels)[k]
  {
    counts := map[];
    for i := 0 to |labels|
      invariant forall k :: k in counts <==> k in labels[..i]
      invariant forall k :: k in counts ==> counts[k] == multiset(labels[..i])[k]
    {
      var l := labels[i];
      assert labels[..i + 1] == labels[..i] + [l];
      var c := if l in counts then counts[l] else 0;
      counts := counts[l := c + 1];
    }
    assert labels[..|labels|] == labels;
  }

  /** Appending one more key to the parts. */
  lemma PartsSnoc(faces: int, keys: seq<string>, counts: multiset<string>, k: string)
    ensures Parts(faces, keys + [k], counts) == Parts(faces, keys, counts) + [k + ":" + Text.NatToString(counts[k])]
  {
  }

  /** The parts list `signature` builds from `counts` and the sorted keys. */
  method BuildParts(faces: int, keys: seq<string>, counts: map<string, nat>, ghost m: multiset<string>)
    returns (parts: seq<string>)
    requires forall k :: k in keys ==> k in counts && counts[k] == m[k]
    ensures parts == Parts(faces, keys, m)
  {
    parts := ["faces:" + Text.IntToString(faces)];
    for i := 0 to |keys|
      invariant parts == Parts(faces, keys[..i], m)
    {
      assert keys[..i + 1] == keys[..i] + [keys[i]];
      PartsSnoc(faces, keys[..i], m, keys[i]);
      parts := parts + [keys[i] + ":" + Text.NatToString(counts[keys[i]])];
    }
    assert keys[..|keys|] == keys;
  }

  /** `signature(detections, faces)`. */
  method Signature(ds: seq<Detection>, faces: int, hash: string -> string) returns (sig: string)
    ensures sig == hash(SignatureText(faces, Labels(ds)))
  {
    var labels := Labels(ds);
    var counts := CountLabels(labels);
    assert counts.Keys == LabelSet(labels);
    var keys := Text.SortMembers(counts.Keys);
    var parts := BuildParts(faces, keys, counts, multiset(labels));
    sig := hash(Text.Join(parts, '|'));
  }

  /** The signature depends only on the face count and the multiset of
      labels, not on the order of the detections. */
  lemma SignatureOrderIndependent(faces: int, a: seq<string>, b: seq<string>)
    requires multiset(a) == multiset(b)
    ensures SignatureText(faces, a) == SignatureText(faces, b)
  {
    assert LabelSet(a) == LabelSet(b) by {
      forall x ensures x in a <==> x in b {
        assert x in a <==> x in multiset(a);
        assert x in b <==> x in multiset(b);
      }
    }
  }

  /** A frame with nothing in it hashes "faces:0". */
  lemma BlankFrameText()
    ensures SignatureText(0, []) == "faces:0"
  {
    assert LabelSet([]) == {};
    assert Text.SortedMembers({}) == [];
  }

  lemma {:induction false} CountOfOneKind(labels: seq<string>, l: string)
    requires forall i :: 0 <= i < |labels| ==> labels[i] == l
    ensures multiset(labels)[l] == |labels|
    ensures LabelSet(labels) == if labels == [] then {} else {l}
    decreases |labels|
  {
    if labels != [] {
      var rest := labels[1..];
      assert forall i :: 0 <= i < |rest| ==> rest[i] == labels[i + 1];
      CountOfOneKind(rest, l);
      assert labels == [l] + rest;
      assert multiset(labels) == multiset{l} + multiset(rest);
    }
  }

  /** The parts for frames that show one kind of object: the face
      count, then that label with the number of detections. */
  lemma OneKindParts(faces: int, labels: seq<string>, l: string)
    requires |labels| > 0 && forall i :: 0 <= i < |labels| ==> labels[i] == l
    ensures SignatureText(faces, labels)
      == Text.Join(["faces:" + Text.IntToString(faces), l + ":" + Text.NatToString(|labels|)], '|')
  {
    CountOfOneKind(labels, l);
    SortedSingleton(l);
    var p := Parts(faces, [l], multiset(labels));
    assert p == ["faces:" + Text.IntToString(faces), l + ":" + Text.NatToString(|labels|)];
  }

  lemma SortedSingleton(l: string)
    ensures Text.SortedMembers({l}) == [l]
  {
    var keys := Text.SortedMembers({l});
    assert keys[0] in {l};
  }

  // ---------------------------------------------------------------------
  // should_emit_event and handle_frame
  // ---------------------------------------------------------------------

  /** `last_sig` and `last_event`. */
  datatype Tracker = Tracker(lastSig: string, lastEvent: int)

  /** Their values when the publisher starts. */
  const Start: Tracker := Tracker("", 0)

  /** `should_emit_event(sig)` at time t. */
  predicate ShouldEmit(tr: Tracker, sig: string, t: int, cooldown: int)
  {
    (sig != tr.lastSig && t - tr.lastEvent >= 0) || (sig == tr.lastSig && t - tr.lastEvent >= cooldown)
  }

  datatype Decision =
    | Blank       // no detections and no faces: only last_sig moves
    | Suppressed  // should_emit_event said no: nothing changes
    | Emitted     // the event went out (or to the spool)

  /** The bookkeeping of `handle_frame`: `t` is the time should_emit_event
      reads, `tDone` the time read once the event has been handed over. */
  function FrameStep(tr: Tracker, sig: string, blank: bool, t: int, tDone: int, cooldown: int): (Tracker, Decision)
  {
    if blank then (tr.(lastSig := sig), Blank)
    else if !ShouldEmit(tr, sig, t, cooldown) then (tr, Suppressed)
    else (Tracker(sig, tDone), Emitted)
  }

  /** A frame emits exactly when it is not blank and should_emit_event
      agrees; a blank frame only records its signature, a suppressed one
      changes nothing, and an emitted one records its signature and the
      time taken after the hand-over. */
  lemma FrameStepOutcome(tr: Tracker, sig: string, blank: bool, t: int, tDone: int, cooldown: int)
    ensures var (tr', d) := FrameStep(tr, sig, blank, t, tDone, cooldown);
      && (d == Emitted <==> !blank && ShouldEmit(tr, sig, t, cooldown))
      && (d == Blank <==> blank)
      && (d == Blank ==> tr' == Tracker(sig, tr.lastEvent))
      && (d == Suppressed ==> tr' == tr)
      && (d == Emitted ==> tr' == Tracker(sig, tDone))
  {
  }

  /** A new signature is emitted at once, unless the clock reads earlier
      than the last event. */
  lemma NewSignatureEmits(tr: Tracker, sig: string, t: int, tDone: int, cooldown: int)
    requires sig != tr.lastSig
    ensures FrameStep(tr, sig, false, t, tDone, cooldown).1 == Emitted <==> t >= tr.lastEvent
  {
  }

  /** The same signature again is emitted only once the cooldown has
      passed since the last event. */
  lemma RepeatNeedsCooldown(sig: string, tLast: int, t: int, tDone: int, cooldown: int)
    ensures FrameStep(Tracker(sig, tLast), sig, false, t, tDone, cooldown).1 == Emitted <==> t >= tLast + cooldown
  {
  }

  /** With the clock behind the last event nothing is emitted, whatever
      the signature. */
  lemma ClockBehindSuppresses(tr: Tracker, sig: string, t: int, tDone: int, cooldown: int)
    requires cooldown >= 0 && t < tr.lastEvent
    ensures FrameStep(tr, sig, false, t, tDone, cooldown).1 == Suppressed
  {
  }

  /** The first detection after start-up is emitted (a sha1 digest is
      never the empty initial last_sig). */
  lemma FirstDetectionEmitted(sig: string, t: int, tDone: int, cooldown: int)
    requires sig != "" && t >= 0
    ensures FrameStep(Start, sig, false, t, tDone, cooldown) == (Tracker(sig, tDone), Emitted)
  {
  }

  /** A blank frame between two identical detections lifts the cooldown:
      the blank frame's signature replaces last_sig, so the detection
      counts as new when it comes back. */
  lemma BlankFrameLiftsCooldown(sig: string, blankSig: string, tLast: int, t1: int, t2: int, tDone: int, cooldown: int)
    requires blankSig != sig && tLast <= t2
    ensures var (tr1, d1) := FrameStep(Tracker(sig, tLast), blankSig, true, t1, t1, cooldown);
      d1 == Blank && FrameStep(tr1, sig, false, t2, tDone, cooldown).1 == Emitted
  {
  }

  /** One frame: its signature, whether it is blank, and the two clock
      readings. */
  datatype Frame = Frame(sig: string, blank: bool, t: int, tDone: int)

  /** handle_frame over a stream of frames. */
  function RunFrames(tr: Tracker, frames: seq<Frame>, cooldown: int): (r: (Tracker, seq<Decision>))
    ensures |r.1| == |frames|
    decreases |frames|
  {
    if frames == [] then (tr, [])
    else
      var (tr1, d) := FrameStep(tr, frames[0].sig, frames[0].blank, frames[0].t, frames[0].tDone, cooldown);
      var (tr2, ds) := RunFrames(tr1, frames[1..], cooldown);
      (tr2, [d] + ds)
  }

  /** Right after an event, a stream of frames showing the same scene
      within the cooldown emits nothing and leaves the bookkeeping as it
      was. */
  lemma {:induction false} QuietWithinCooldown(sig: string, tLast: int, frames: seq<Frame>, cooldown: int)
    requires forall i :: 0 <= i < |frames| ==> frames[i].sig == sig && !frames[i].blank && frames[i].t < tLast + cooldown
    ensures RunFrames(Tracker(sig, tLast), frames, cooldown).0 == Tracker(sig, tLast)
    ensures forall i :: 0 <= i < |frames| ==> RunFrames(Tracker(sig, tLast), frames, cooldown).1[i] == Suppressed
    decreases |frames|
  {
    if frames != [] {
      var rest := frames[1..];
      assert forall i :: 0 <= i < |rest| ==> rest[i] == frames[i + 1];
      QuietWithinCooldown(sig, tLast, rest, cooldown);
    }
  }

  // ---------------------------------------------------------------------
  // event_payload
  // ---------------------------------------------------------------------

  function DetectionJson(d: Detection): Json
  {
    JObj(map["label" := JStr(d.name), "conf" := d.conf, "box" := d.box])
  }

  function StrOrNull(s: Option<string>): Json
  {
    if s.None? then JNull else JStr(s.value)
  }

  /** `event_payload(detections, faces, ...)`, `ts` being now_iso(). */
  function EventPayload(ts: string, deviceId: string, ds: seq<Detection>, faces: int,
                        snapshotPath: Option<string>, snapshotB64: Option<string>, url: Option<string>): (p: Json)
    ensures p.JObj? && "labels" in p.fields && p.fields["labels"].JArr?
  {
    JObj(map[
      "ts" := JStr(ts),
      "device_id" := JStr(deviceId),
      "faces" := JNum(faces),
      "labels" := JArr(seq(|ds|, i requires 0 <= i < |ds| => JStr(ds[i].name))),
      "detections" := JArr(seq(|ds|, i requires 0 <= i < |ds| => DetectionJson(ds[i]))),
      "snapshot_path" := StrOrNull(snapshotPath),
      "snapshot_b64" := StrOrNull(snapshotB64),
      "snapshot_url" := StrOrNull(url)])
  }

  /** The worker stores the payload's labels as the detection labels in
      order, its face count, and its snapshot path and URL exactly when
      they were given. */
  lemma EventPayloadStored(ts: string, deviceId: string, ds: seq<Detection>, faces: int,
                           snapshotPath: Option<string>, snapshotB64: Option<string>, url: Option<string>,
                           topicDevice: string, when: int)
    ensures var row := Ingest.EventRowOf(topicDevice, EventPayload(ts, deviceId, ds, faces, snapshotPath, snapshotB64, url), when);
      && row.labels.Some? && row.labels.value.JArr?
      && |row.labels.value.items| == |ds|
      && (forall i :: 0 <= i < |ds| ==> row.labels.value.items[i] == JStr(Labels(ds)[i]))
      && row.faces == Some(faces)
      && row.snapshotPath == snapshotPath
      && row.snapshotUrl == url
  {
  }

  // ---------------------------------------------------------------------
  // publish_or_spool
  // ---------------------------------------------------------------------

  /** What is handed to publish: a ready string, or a dict/list that is
      sent as its compact JSON text. */
  datatype Payload = Text(s: string) | Structured(value: Json)

  /** The text that goes on the wire (and into the spooled record). */
  function WireText(payload: Payload, dumps: Json -> string): string
  {
    match payload
    case Text(s) => s
    case Structured(v) => dumps(v)
  }

  /** The record publish_or_spool spools. */
  function SpoolRecord(topic: string, payload: Payload, qos: int, retain: bool, ts: string, dumps: Json -> string): (rec: Json)
    ensures Spool.IsRecord(rec)
  {
    JObj(map[
      "topic" := JStr(topic),
      "payload" := JStr(WireText(payload, dumps)),
      "qos" := JNum(qos),
      "retain" := JBool(retain),
      "ts" := JStr(ts)])
  }

  /** The spooled record carries the message as it would have been sent:
      its topic, its wire text, its qos and retain flag. */
  lemma SpoolRecordCarriesMessage(topic: string, payload: Payload, qos: int, retain: bool, ts: string, dumps: Json -> string)
    ensures var rec := SpoolRecord(topic, payload, qos, retain, ts, dumps);
      && rec.fields["topic"] == JStr(topic)
      && rec.fields["payload"] == JStr(WireText(payload, dumps))
      && rec.fields["qos"] == JNum(qos) && rec.fields["retain"] == JBool(retain)
  {
  }

  /** A message spooled into an empty spool is replayed by the next flush:
      when the broker takes it the spool is deleted and flush reports one
      message; when it refuses it the spool is left as it was. */
  lemma SpooledMessageReplayed(topic: string, payload: Payload, qos: int, retain: bool, ts: string,
                               dumps: Json -> string, encode: Json -> string, parse: string -> Option<Json>,
                               accept: nat -> bool, maxBytes: int, maxRecords: nat)
    requires parse(encode(SpoolRecord(topic, payload, qos, retain, ts, dumps))) == Some(SpoolRecord(topic, payload, qos, retain, ts, dumps))
    requires maxRecords >= 1
    ensures var line := encode(SpoolRecord(topic, payload, qos, retain, ts, dumps));
      var file := Spool.Appended(None, line, maxBytes);
      && file == [line]
      && (accept(0) ==> Spool.Flushed(Some(file), parse, accept, maxRecords) == (None, Spool.Returned(1)))
      && (!accept(0) ==> Spool.Flushed(Some(file), parse, accept, maxRecords) == (Some(file), Spool.Returned(0)))
  {
    var rec := SpoolRecord(topic, payload, qos, retain, ts, dumps);
    var line := encode(rec);
    Spool.AppendToMissing(line, maxBytes);
    Spool.FlushSingle(line, parse, accept, maxRecords);
  }

  // ---------------------------------------------------------------------
  // The publisher
  // ---------------------------------------------------------------------

  /** The outside world as one frame sees it: the two clock readings, the
      two now_iso() texts, what save_snapshot and http_upload return, and
      whether the broker takes the message. */
  datatype FrameIo = FrameIo(
    t: int, tDone: int,
    eventIso: string, spoolIso: string,
    snapshotPath: Option<string>, snapshotB64: Option<string>,
    uploaded: Option<string>,
    publishOk: bool)

  /** sha1, the compact payload encoding, and the spool line encoding. */
  datatype Codec = Codec(hash: string -> string, dumps: Json -> string, encode: Json -> string)

  /** The snapshot URL: an upload happens only for a saved snapshot and a
      configured upload URL. */
  function UploadedUrl(io: FrameIo, uploadConfigured: bool): Option<string>
  {
    if io.snapshotPath.Some? && io.snapshotPath.value != "" && uploadConfigured then io.uploaded else None
  }

  class Publisher {
    var connected: bool
    var lastSig: string
    var lastEvent: int
    const deviceId: string
    const topicEvents: string
    const cooldown: int
    const uploadConfigured: bool
    const spool: Spool.SpoolFile

    function Bookkeeping(): Tracker
      reads this
    {
      Tracker(lastSig, lastEvent)
    }

    /** A publisher that is not yet connected, with the start-up values
        of last_sig and last_event. */
    constructor (deviceId: string, topicBase: string, cooldown: int, uploadConfigured: bool, spool: Spool.SpoolFile)
      ensures !connected && Bookkeeping() == Start
      ensures this.deviceId == deviceId && topicEvents == topicBase + "/events"
      ensures this.cooldown == cooldown && this.uploadConfigured == uploadConfigured && this.spool == spool
    {
      connected := false;
      lastSig := "";
      lastEvent := 0;
      this.deviceId := deviceId;
      topicEvents := topicBase + "/events";
      this.cooldown := cooldown;
      this.uploadConfigured := uploadConfigured;
      this.spool := spool;
    }

    /** `publish_or_spool`: `publishOk` is what publish returns, asked
        only when connected. */
    method PublishOrSpool(topic: string, payload: Payload, qos: int, retain: bool, publishOk: bool,
                          ts: string, codec: Codec) returns (ok: bool)
      modifies spool
      ensures ok <==> connected && publishOk
      ensures ok ==> spool.file == old(spool.file)
      ensures !ok ==> spool.file == Some(Spool.Appended(old(spool.file),
        codec.encode(SpoolRecord(topic, payload, qos, retain, ts, codec.dumps)), spool.maxBytes))
    {
      var sent := if connected then publishOk else false;
      if sent {
        return true;
      }
      var rec := SpoolRecord(topic, payload, qos, retain, ts, codec.dumps);
      var _ := spool.Append(codec.encode(rec));
      ok := false;
    }

    /** `handle_frame` once detection has produced `ds` and `faces`. */
    method HandleFrame(ds: seq<Detection>, faces: int, io: FrameIo, codec: Codec) returns (d: Decision)
      modifies this, spool
      ensures var sig := codec.hash(SignatureText(faces, Labels(ds)));
        (Bookkeeping(), d) == FrameStep(old(Bookkeeping()), sig, ds == [] && faces == 0, io.t, io.tDone, cooldown)
      ensures connected == old(connected)
      ensures d != Emitted || (connected && io.publishOk) ==> spool.file == old(spool.file)
      ensures d == Emitted && !(connected && io.publishOk) ==>
        var payload := EventPayload(io.eventIso, deviceId, ds, faces, io.snapshotPath, io.snapshotB64, UploadedUrl(io, uploadConfigured));
        spool.file == Some(Spool.Appended(old(spool.file),
          codec.encode(SpoolRecord(topicEvents, Structured(payload), 1, false, io.spoolIso, codec.dumps)), spool.maxBytes))
    {
      var sig := Signature(ds, faces, codec.hash);
      if ds == [] && faces == 0 {
        lastSig := sig;
        return Blank;
      }
      if !ShouldEmit(Bookkeeping(), sig, io.t, cooldown) {
        return Suppressed;
      }
      var url := UploadedUrl(io, uploadConfigured);
      var payload := EventPayload(io.eventIso, deviceId, ds, faces, io.snapshotPath, io.snapshotB64, url);
      var _ := PublishOrSpool(topicEvents, Structured(payload), 1, false, io.publishOk, io.spoolIso, codec);
      lastSig := sig;
      lastEvent := io.tDone;
      d := Emitted;
    }
  }
}
