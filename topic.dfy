/** Topic routing: the worker's parse_topic and the dashboards'
    getDeviceFromTopic / getTypeFromTopic. Both strip leading and trailing
    slashes, split on '/', and accept only the hard-coded root home/iot,
    whatever MQTT_TOPIC_ROOT says. */
module Topic {
  import Text
  import opened JsonValue

  const Slash: set<char> := {'/'}

  /** The topic with outer slashes removed, split on '/'
      (PHP explode(trim) and JS split(replace) agree on this). */
  function Segments(topic: string): (p: seq<string>)
    ensures |p| >= 1
  {
    Text.Split(Text.Trim(topic, Slash), '/')
  }

  /** worker.php's parse_topic: ("", "") for a topic outside home/iot or
      with fewer than four segments; otherwise (segment 2, segment 3),
      where "status" becomes "online" only when segment 4 is "online". */
  function ParseTopic(topic: string): (r: (string, string))
    ensures '/' !in r.0 && '/' !in r.1
    ensures r != ("", "") ==>
      |Segments(topic)| >= 4 && Segments(topic)[0] == "home" && Segments(topic)[1] == "iot" && r.0 == Segments(topic)[2]
    ensures r.1 == "online" ==>
      Segments(topic)[3] == "online" || (Segments(topic)[3] == "status" && |Segments(topic)| > 4 && Segments(topic)[4] == "online")
  {
    var p := Segments(topic);
    if |p| < 4 then ("", "")
    else if p[0] != "home" || p[1] != "iot" then ("", "")
    else
      var kind := if p[3] == "status" then (if |p| > 4 && p[4] == "online" then "online" else "status") else p[3];
      (p[2], kind)
  }

  /** The kinds the worker's three handlers accept. */
  const WorkerKinds: set<string> := {"telemetry", "events", "online"}

  /** The canonical topic `home/iot/<id>/<rest...>`. */
  function TopicOf(id: string, rest: seq<string>): string
    requires |rest| >= 1
  {
    Text.Join(["home", "iot", id] + rest, '/')
  }

  /** A four-segment topic spelled out. */
  lemma TopicOfSpelled(id: string, kind: string)
    ensures TopicOf(id, [kind]) == "home/iot/" + id + "/" + kind
  {
    var parts := ["home", "iot", id] + [kind];
    assert parts == ["home", "iot", id, kind];
    assert parts[1..] == ["iot", id, kind];
    assert parts[1..][1..] == [id, kind];
    assert parts[1..][1..][1..] == [kind];
    assert Text.Join([kind], '/') == kind;
    assert Text.Join([id, kind], '/') == id + "/" + kind;
    assert Text.Join(["iot", id, kind], '/') == "iot" + "/" + (id + "/" + kind);
    assert "home" + "/" + ("iot" + "/" + (id + "/" + kind)) == "home/iot/" + id + "/" + kind;
  }

  /** A status topic spelled out. */
  lemma StatusTopicSpelled(id: string, sub: string)
    ensures TopicOf(id, ["status", sub]) == "home/iot/" + id + "/status/" + sub
  {
    var parts := ["home", "iot", id] + ["status", sub];
    assert parts == ["home", "iot", id, "status", sub];
    assert parts[1..] == ["iot", id, "status", sub];
    assert parts[1..][1..] == [id, "status", sub];
    assert parts[1..][1..][1..] == ["status", sub];
    assert parts[1..][1..][1..][1..] == [sub];
    assert Text.Join(["status", sub], '/') == "status" + "/" + sub;
    assert Text.Join([id, "status", sub], '/') == id + "/" + ("status" + "/" + sub);
    assert Text.Join(["iot", id, "status", sub], '/') == "iot" + "/" + (id + "/" + ("status" + "/" + sub));
    assert "home" + "/" + ("iot" + "/" + (id + "/" + ("status" + "/" + sub))) == "home/iot/" + id + "/status/" + sub;
  }

  lemma SegmentsOfCanonical(id: string, rest: seq<string>)
    requires |rest| >= 1 && rest[|rest| - 1] != []
    requires '/' !in id && forall i :: 0 <= i < |rest| ==> '/' !in rest[i]
    requires rest[|rest| - 1][|rest[|rest| - 1]| - 1] != '/'
    ensures Segments(TopicOf(id, rest)) == ["home", "iot", id] + rest
  {
    var parts := ["home", "iot", id] + rest;
    var t := TopicOf(id, rest);
    JoinEnds(parts, '/');
    Text.TrimUntouched(t, Slash);
    Text.SplitJoin(parts, '/');
  }

  lemma {:induction false} JoinEnds(parts: seq<string>, sep: char)
    requires |parts| >= 1 && parts[0] != [] && parts[|parts| - 1] != []
    ensures var j := Text.Join(parts, sep);
      j != [] && j[0] == parts[0][0] && j[|j| - 1] == parts[|parts| - 1][|parts[|parts| - 1]| - 1]
  {
    JoinLast(parts, sep);
  }

  lemma {:induction false} JoinLast(parts: seq<string>, sep: char)
    requires |parts| >= 1 && parts[|parts| - 1] != []
    ensures var j := Text.Join(parts, sep);
      j != [] && j[|j| - 1] == parts[|parts| - 1][|parts[|parts| - 1]| - 1]
    decreases |parts|
  {
    if |parts| > 1 {
      JoinLast(parts[1..], sep);
    }
  }

  /** Telemetry and event topics route to (id, kind). */
  lemma RoutesDataTopic(id: string, kind: string)
    requires '/' !in id
    requires kind == "telemetry" || kind == "events"
    ensures ParseTopic(TopicOf(id, [kind])) == (id, kind)
  {
    SegmentsOfCanonical(id, [kind]);
  }

  /** `home/iot/<id>/status/<sub>` is an online message only when sub is
      "online"; any other sub-kind stays "status", which no handler takes. */
  lemma RoutesStatusTopic(id: string, sub: string)
    requires '/' !in id && '/' !in sub && sub != []
    ensures ParseTopic(TopicOf(id, ["status", sub])) == (id, if sub == "online" then "online" else "status")
  {
    SegmentsOfCanonical(id, ["status", sub]);
  }

  /** A status topic without a sub-kind is not an online message. */
  lemma RoutesBareStatusTopic(id: string)
    requires '/' !in id
    ensures ParseTopic(TopicOf(id, ["status"])) == (id, "status")
  {
    SegmentsOfCanonical(id, ["status"]);
  }

  /** A topic whose first two segments are not home/iot is dropped,
      whatever its length. */
  lemma ForeignRootDropped(topic: string)
    requires |Segments(topic)| >= 2
    requires Segments(topic)[0] != "home" || Segments(topic)[1] != "iot"
    ensures ParseTopic(topic) == ("", "")
  {
  }

  /** The topics a publisher builds under another root (MQTT_TOPIC_ROOT
      set to root0/root1) are all dropped, although the worker subscribed
      to them. */
  lemma ConfiguredRootDropped(root0: string, root1: string, id: string, rest: seq<string>)
    requires root0 != "home" || root1 != "iot"
    requires root0 != [] && root0[0] != '/'
    requires |rest| >= 1 && rest[|rest| - 1] != [] && rest[|rest| - 1][|rest[|rest| - 1]| - 1] != '/'
    requires '/' !in root0 && '/' !in root1 && '/' !in id && forall i :: 0 <= i < |rest| ==> '/' !in rest[i]
    ensures ParseTopic(Text.Join([root0, root1, id] + rest, '/')) == ("", "")
  {
    var parts := [root0, root1, id] + rest;
    JoinEnds(parts, '/');
    Text.TrimUntouched(Text.Join(parts, '/'), Slash);
    Text.SplitJoin(parts, '/');
    ForeignRootDropped(Text.Join(parts, '/'));
  }

  /** A topic whose trimmed form holds at most two slashes has fewer than
      four segments and is dropped. */
  lemma ShortTopicDropped(topic: string)
    requires multiset(Text.Trim(topic, Slash))['/'] <= 2
    ensures ParseTopic(topic) == ("", "")
  {
    SplitCount(Text.Trim(topic, Slash), '/');
    assert |Segments(topic)| < 4;
  }

  /** In particular a topic with at most two slashes anywhere is dropped. */
  lemma FewSlashesDropped(topic: string)
    requires multiset(topic)['/'] <= 2
    ensures ParseTopic(topic) == ("", "")
  {
    var t := Text.Trim(topic, Slash);
    var i := TrimIsInfix(topic, Slash);
    InfixCount(topic, i, i + |t|, '/');
    ShortTopicDropped(topic);
  }

  /** A slice holds no more copies of a character than the whole. */
  lemma InfixCount(s: string, i: nat, j: nat, ch: char)
    requires i <= j <= |s|
    ensures multiset(s[i..j])[ch] <= multiset(s)[ch]
  {
    assert s == s[..i] + s[i..j] + s[j..];
    assert multiset(s) == multiset(s[..i]) + multiset(s[i..j]) + multiset(s[j..]);
  }

  lemma TrimIsInfix(s: string, cs: set<char>) returns (i: nat)
    ensures i + |Text.Trim(s, cs)| <= |s| && Text.Trim(s, cs) == s[i..i + |Text.Trim(s, cs)|]
  {
    var a := Text.TrimStart(s, cs);
    var b := Text.TrimEnd(a, cs);
    i := |s| - |a|;
    assert b == a[..|b|];
    assert a == s[i..];
    assert b == s[i..i + |b|];
  }

  /** k separators make k + 1 pieces. */
  lemma {:induction false} SplitCount(s: string, sep: char)
    ensures |Text.Split(s, sep)| == 1 + multiset(s)[sep]
    decreases |s|
  {
    if s != [] {
      SplitCount(s[1..], sep);
      assert s == [s[0]] + s[1..];
    }
  }

  // ---------------------------------------------------------------------
  // The dashboards' router (assets/js/dashboard.js and the inline script
  // of dashboard.php carry the same three arrow functions)
  // ---------------------------------------------------------------------

  /** getDeviceFromTopic: segment 2 of a home/iot topic with at least four
      segments, else null. */
  function DeviceFromTopic(topic: string): (r: Option<string>)
    ensures r.Some? ==> '/' !in r.value && r.value == ParseTopic(topic).0
    ensures r.None? ==> ParseTopic(topic) == ("", "")
  {
    var p := Segments(topic);
    if |p| < 4 || p[0] != "home" || p[1] != "iot" then None else Some(p[2])
  }

  /** getTypeFromTopic: looks at segments 3 and 4 only; it does not check
      the root. */
  function TypeFromTopic(topic: string): (r: Option<string>)
    ensures r.Some? ==> r.value in WorkerKinds && |Segments(topic)| >= 4
    ensures r.Some? && DeviceFromTopic(topic).Some? ==> r.value == ParseTopic(topic).1
  {
    var p := Segments(topic);
    if |p| < 4 then None
    else if p[3] == "telemetry" then Some("telemetry")
    else if p[3] == "events" then Some("events")
    else if p[3] == "status" && |p| > 4 && p[4] == "online" then Some("online")
    else None
  }

  /** The message handler's guard `if (!deviceId || !type) return;`. */
  predicate ClientAccepts(topic: string)
  {
    DeviceFromTopic(topic).Some? && DeviceFromTopic(topic).value != "" && TypeFromTopic(topic).Some?
  }

  /** Client and worker agree on every topic the client accepts, and the
      client accepts every topic the worker hands to one of its three
      handlers, except those whose fourth segment is literally "online"
      (which the worker also reads as an online message). */
  lemma RoutersAgree(topic: string)
    ensures ClientAccepts(topic) ==>
      ParseTopic(topic) == (DeviceFromTopic(topic).value, TypeFromTopic(topic).value)
    ensures ParseTopic(topic).0 != "" && ParseTopic(topic).1 in WorkerKinds && !ClientAccepts(topic) ==>
      Segments(topic)[3] == "online"
  {
    var p := Segments(topic);
    if |p| >= 4 && p[0] == "home" && p[1] == "iot" {
      assert DeviceFromTopic(topic) == Some(p[2]);
      assert ParseTopic(topic).0 == p[2];
      if p[3] == "status" {
        assert TypeFromTopic(topic).Some? <==> ParseTopic(topic).1 == "online";
      } else {
        assert ParseTopic(topic).1 == p[3];
      }
    } else {
      assert ParseTopic(topic) == ("", "");
      assert DeviceFromTopic(topic).None?;
    }
  }

  /** The client rejects a topic whenever the worker drops it. */
  lemma ClientDropsWhatWorkerDrops(topic: string)
    requires ParseTopic(topic).0 == "" || ParseTopic(topic).1 !in WorkerKinds
    ensures !ClientAccepts(topic)
  {
  }
}
