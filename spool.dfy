/** The publisher's on-disk spool (class Spool of send_data.py): a file of
    JSON lines that records which could not be published are appended to,
    cut back to its last 5000 lines when it grows past `max_bytes`, and
    replayed in order by `flush` once the broker is reachable again.

    The file is its sequence of lines (None when it does not exist).
    Every line a writer puts there is a `json.dumps` text with the
    default ASCII escaping, so it holds no line break and its length in
    characters is its length in bytes. `json.loads` is the parameter
    `parse`; the outcome of each publish attempt is the parameter
    `accept`, indexed by the line's position in the file. */
module Spool {
  import opened JsonValue

  /** `_trim_if_needed` keeps this many trailing lines. */
  const TrimKeep: nat := 5000
  /** `flush`'s default `max_records`. */
  const DefaultMaxRecords: nat := 500
  /** SPOOL_MAX_BYTES when the environment does not set it. */
  const DefaultMaxBytes: int := 5_000_000

  function Min(a: int, b: int): int
  {
    if a <= b then a else b
  }

  function Contents(file: Option<seq<string>>): seq<string>
  {
    if file.None? then [] else file.value
  }

  // ---------------------------------------------------------------------
  // append and _trim_if_needed
  // ---------------------------------------------------------------------

  /** st_size of a file holding the lines, each ended by "\n". */
  function Size(lines: seq<string>): (n: nat)
    ensures n >= |lines|
    decreases |lines|
  {
    if lines == [] then 0 else Size(lines[..|lines| - 1]) + |lines[|lines| - 1]| + 1
  }

  /** `lines[-n:]`. */
  function LastLines(lines: seq<string>, n: nat): (r: seq<string>)
    ensures |r| == Min(n, |lines|)
    ensures r == lines[|lines| - |r|..]
  {
    lines[|lines| - Min(n, |lines|)..]
  }

  /** The file after `_trim_if_needed`. */
  function Trimmed(lines: seq<string>, maxBytes: int): seq<string>
  {
    if Size(lines) <= maxBytes then lines else LastLines(lines, TrimKeep)
  }

  /** The file after `append(record)`, where `line` is the record's JSON text. */
  function Appended(file: Option<seq<string>>, line: string, maxBytes: int): seq<string>
  {
    Trimmed(Contents(file) + [line], maxBytes)
  }

  /** append adds exactly one line at the end; the file keeps everything
      while it fits in max_bytes, and otherwise its last 5000 lines. */
  lemma AppendAddsLast(file: Option<seq<string>>, line: string, maxBytes: int)
    ensures var all := Contents(file) + [line];
      var r := Appended(file, line, maxBytes);
      && |r| >= 1 && r[|r| - 1] == line
      && r == all[|all| - |r|..]
      && (Size(all) <= maxBytes ==> r == all)
      && (Size(all) > maxBytes ==> |r| == Min(TrimKeep, |all|))
  {
  }

  /** After an append the file fits in max_bytes or holds at most 5000 lines. */
  lemma AppendBounded(file: Option<seq<string>>, line: string, maxBytes: int)
    ensures Size(Appended(file, line, maxBytes)) <= maxBytes || |Appended(file, line, maxBytes)| <= TrimKeep
  {
  }

  /** max_bytes only triggers the cut: a file of at most 5000 lines is
      left as it is, however large it is. */
  lemma TrimKeepsShortFile(lines: seq<string>, maxBytes: int)
    requires |lines| <= TrimKeep
    ensures Trimmed(lines, maxBytes) == lines
  {
  }

  /** A single line larger than max_bytes stays in the spool. */
  lemma OversizedLineStays(line: string)
    requires |line| > 0
    ensures Appended(None, line, 0) == [line]
    ensures Size(Appended(None, line, 0)) > 0
  {
    assert Size([line]) == |line| + 1 by {
      assert [line][..0] == [];
    }
  }

  // ---------------------------------------------------------------------
  // flush
  // ---------------------------------------------------------------------

  /** What becomes of one of the first `max_records` lines. */
  datatype LineStatus =
    | Unparseable   // json.loads raised: dropped
    | Malformed     // rec["topic"] or rec["payload"] raised: flush raises
    | Published     // publish_fn returned True: removed
    | Rejected      // publish_fn returned False: kept

  /** A decoded record flush can publish: a JSON object with `topic` and
      `payload` members (qos and retain have defaults). */
  predicate IsRecord(rec: Json)
  {
    rec.JObj? && "topic" in rec.fields && "payload" in rec.fields
  }

  function Status(line: string, i: nat, parse: string -> Option<Json>, accept: nat -> bool): LineStatus
  {
    match parse(line)
    case None => Unparseable
    case Some(rec) =>
      if !IsRecord(rec) then Malformed
      else if accept(i) then Published
      else Rejected
  }

  /** No line of `lines` makes flush raise. */
  predicate WellFormed(lines: seq<string>, parse: string -> Option<Json>)
  {
    forall i :: 0 <= i < |lines| ==> parse(lines[i]).Some? ==> IsRecord(parse(lines[i]).value)
  }

  /** The lines whose publish failed, in file order. */
  function KeptLines(lines: seq<string>, parse: string -> Option<Json>, accept: nat -> bool): (r: seq<string>)
    ensures |r| <= |lines|
    ensures forall i :: 0 <= i < |r| ==> r[i] in lines
    decreases |lines|
  {
    if lines == [] then []
    else
      var n := |lines| - 1;
      KeptLines(lines[..n], parse, accept) + (if Status(lines[n], n, parse, accept) == Rejected then [lines[n]] else [])
  }

  /** How many lines were published. */
  function SentCount(lines: seq<string>, parse: string -> Option<Json>, accept: nat -> bool): (r: nat)
    ensures r <= |lines|
    ensures r > 0 ==> exists i :: 0 <= i < |lines| && Status(lines[i], i, parse, accept) == Published
    decreases |lines|
  {
    if lines == [] then 0
    else
      var n := |lines| - 1;
      SentCount(lines[..n], parse, accept) + (if Status(lines[n], n, parse, accept) == Published then 1 else 0)
  }

  /** How many lines did not parse. */
  function DroppedCount(lines: seq<string>, parse: string -> Option<Json>): nat
    decreases |lines|
  {
    if lines == [] then 0
    else
      var n := |lines| - 1;
      DroppedCount(lines[..n], parse) + (if parse(lines[n]).None? then 1 else 0)
  }

  datatype FlushOutcome = Returned(sent: nat) | Raised

  /** The file and the result after `flush(publish_fn, max_records)`. A
      malformed record raises out of flush before the file is rewritten;
      the records published before it have gone out all the same. */
  function Flushed(file: Option<seq<string>>, parse: string -> Option<Json>, accept: nat -> bool, maxRecords: nat)
    : (Option<seq<string>>, FlushOutcome)
  {
    if file.None? || file.value == [] then (None, Returned(0))
    else
      var lines := file.value;
      var m := Min(maxRecords, |lines|);
      if !WellFormed(lines[..m], parse) then (file, Raised)
      else
        var kept := KeptLines(lines[..m], parse, accept) + lines[m..];
        (if kept == [] then None else Some(kept), Returned(SentCount(lines[..m], parse, accept)))
  }

  /** Every processed line is dropped, published or kept, exactly one of
      the three. */
  lemma {:induction false} FlushAccounts(lines: seq<string>, parse: string -> Option<Json>, accept: nat -> bool)
    requires WellFormed(lines, parse)
    ensures |KeptLines(lines, parse, accept)| + SentCount(lines, parse, accept) + DroppedCount(lines, parse) == |lines|
    decreases |lines|
  {
    if lines != [] {
      var n := |lines| - 1;
      assert WellFormed(lines[..n], parse) by {
        forall i | 0 <= i < n ensures lines[..n][i] == lines[i] { }
      }
      FlushAccounts(lines[..n], parse, accept);
      assert parse(lines[n]).Some? ==> IsRecord(parse(lines[n]).value);
    }
  }

  /** `a` is `b` with some lines removed, the rest in the same order. */
  predicate IsSubsequence(a: seq<string>, b: seq<string>)
    decreases |b|
  {
    if a == [] then true
    else if b == [] then false
    else if a[|a| - 1] == b[|b| - 1] then IsSubsequence(a[..|a| - 1], b[..|b| - 1])
    else IsSubsequence(a, b[..|b| - 1])
  }

  lemma {:induction false} SubsequenceDropLast(a: seq<string>, b: seq<string>)
    requires a != [] && IsSubsequence(a, b)
    ensures IsSubsequence(a[..|a| - 1], b)
    decreases |b|, 0
  {
    var init := a[..|a| - 1];
    if init != [] && b != [] {
      if a[|a| - 1] == b[|b| - 1] {
        SubsequenceGrow(init, b[..|b| - 1], b[|b| - 1]);
        assert b[..|b| - 1] + [b[|b| - 1]] == b;
      } else {
        SubsequenceDropLast(a, b[..|b| - 1]);
        SubsequenceGrow(init, b[..|b| - 1], b[|b| - 1]);
        assert b[..|b| - 1] + [b[|b| - 1]] == b;
      }
    }
  }

  lemma {:induction false} SubsequenceGrow(a: seq<string>, b: seq<string>, x: string)
    requires IsSubsequence(a, b)
    ensures IsSubsequence(a, b + [x])
    decreases |b|, 1
  {
    var bx := b + [x];
    assert bx[..|bx| - 1] == b;
    if a != [] && a[|a| - 1] == x {
      SubsequenceDropLast(a, b);
    }
  }

  /** The kept lines keep their original relative order, and each of them
      is a line whose publish failed. */
  lemma {:induction false} KeptInOrder(lines: seq<string>, parse: string -> Option<Json>, accept: nat -> bool)
    ensures IsSubsequence(KeptLines(lines, parse, accept), lines)
    ensures forall x :: x in KeptLines(lines, parse, accept) ==>
      exists i :: 0 <= i < |lines| && lines[i] == x && Status(x, i, parse, accept) == Rejected
    decreases |lines|
  {
    if lines != [] {
      var n := |lines| - 1;
      var init := lines[..n];
      KeptInOrder(init, parse, accept);
      var k := KeptLines(init, parse, accept);
      assert lines == init + [lines[n]];
      if Status(lines[n], n, parse, accept) == Rejected {
        var a := k + [lines[n]];
        assert KeptLines(lines, parse, accept) == a;
        assert a[..|a| - 1] == k && a[|a| - 1] == lines[n];
        assert lines[..|lines| - 1] == init;
        assert IsSubsequence(a, lines);
      } else {
        assert KeptLines(lines, parse, accept) == k;
        SubsequenceGrow(k, init, lines[n]);
      }
      forall x | x in KeptLines(lines, parse, accept)
        ensures exists i :: 0 <= i < |lines| && lines[i] == x && Status(x, i, parse, accept) == Rejected
      {
        if x in k {
          var i :| 0 <= i < |init| && init[i] == x && Status(x, i, parse, accept) == Rejected;
          assert lines[i] == x;
        }
      }
    }
  }

  /** flush on a missing file returns 0; on an empty file it deletes it
      and returns 0. */
  lemma FlushNothing(parse: string -> Option<Json>, accept: nat -> bool, maxRecords: nat)
    ensures Flushed(None, parse, accept, maxRecords) == (None, Returned(0))
    ensures Flushed(Some([]), parse, accept, maxRecords) == (None, Returned(0))
  {
  }

  /** Lines from index max_records on are kept unchanged, in order, at
      the end of the file; the file is deleted exactly when nothing is
      kept; the result counts the published lines. */
  lemma FlushKeepsTail(lines: seq<string>, parse: string -> Option<Json>, accept: nat -> bool, maxRecords: nat)
    requires lines != [] && WellFormed(lines[..Min(maxRecords, |lines|)], parse)
    ensures var m := Min(maxRecords, |lines|);
      var r := Flushed(Some(lines), parse, accept, maxRecords);
      var kept := KeptLines(lines[..m], parse, accept);
      && r.1 == Returned(SentCount(lines[..m], parse, accept))
      && (r.0.None? <==> kept == [] && m == |lines|)
      && (r.0.Some? ==> r.0.value == kept + lines[m..])
  {
  }

  /** When every record is published and all fit in max_records, flush
      empties the spool and reports every line. */
  lemma FlushAllAccepted(lines: seq<string>, parse: string -> Option<Json>, accept: nat -> bool, maxRecords: nat)
    requires lines != [] && |lines| <= maxRecords
    requires forall i :: 0 <= i < |lines| ==> parse(lines[i]).Some? && IsRecord(parse(lines[i]).value) && accept(i)
    ensures Flushed(Some(lines), parse, accept, maxRecords) == (None, Returned(|lines|))
  {
    assert lines[..|lines|] == lines;
    AllPublished(lines, parse, accept);
  }

  lemma {:induction false} AllPublished(lines: seq<string>, parse: string -> Option<Json>, accept: nat -> bool)
    requires forall i :: 0 <= i < |lines| ==> parse(lines[i]).Some? && IsRecord(parse(lines[i]).value) && accept(i)
    ensures KeptLines(lines, parse, accept) == []
    ensures SentCount(lines, parse, accept) == |lines|
    decreases |lines|
  {
    if lines != [] {
      var n := |lines| - 1;
      assert forall i :: 0 <= i < n ==> lines[..n][i] == lines[i];
      AllPublished(lines[..n], parse, accept);
    }
  }

  /** Appending to a missing spool creates it holding just that line. */
  lemma AppendToMissing(line: string, maxBytes: int)
    ensures Appended(None, line, maxBytes) == [line]
  {
    assert Contents(None) + [line] == [line];
  }

  /** A spool holding one well-formed record: flush publishes it and
      deletes the file, or keeps it when the broker refuses it. */
  lemma FlushSingle(line: string, parse: string -> Option<Json>, accept: nat -> bool, maxRecords: nat)
    requires maxRecords >= 1 && parse(line).Some? && IsRecord(parse(line).value)
    ensures accept(0) ==> Flushed(Some([line]), parse, accept, maxRecords) == (None, Returned(1))
    ensures !accept(0) ==> Flushed(Some([line]), parse, accept, maxRecords) == (Some([line]), Returned(0))
  {
    var file := [line];
    assert file[..1] == file && file[1..] == [] && file[..0] == [];
    assert WellFormed(file, parse);
    assert KeptLines(file, parse, accept) == if accept(0) then [] else [line];
    assert SentCount(file, parse, accept) == if accept(0) then 1 else 0;
    assert KeptLines(file, parse, accept) + file[1..] == KeptLines(file, parse, accept);
  }

  /** A malformed record among the first max_records lines: flush raises
      and the file stays as it was. */
  lemma FlushRaises(lines: seq<string>, parse: string -> Option<Json>, accept: nat -> bool, maxRecords: nat, j: nat)
    requires j < |lines| && j < maxRecords
    requires parse(lines[j]).Some? && !IsRecord(parse(lines[j]).value)
    ensures Flushed(Some(lines), parse, accept, maxRecords) == (Some(lines), Raised)
  {
    var m := Min(maxRecords, |lines|);
    assert lines[..m][j] == lines[j];
  }

  // ---------------------------------------------------------------------
  // The spool file
  // ---------------------------------------------------------------------

  class SpoolFile {
    var file: Option<seq<string>>
    const maxBytes: int

    /** The spool at start-up: whatever a previous run left in the file. */
    constructor (existing: Option<seq<string>>, maxBytes: int)
      ensures file == existing && this.maxBytes == maxBytes
    {
      file := existing;
      this.maxBytes := maxBytes;
    }

    /** `append(record)`, `line` being the record's JSON text. File errors,
        which make it return False, are not modelled. */
    method Append(line: string) returns (ok: bool)
      modifies this
      ensures ok
      ensures file == Some(Appended(old(file), line, maxBytes))
    {
      file := Some(Contents(file) + [line]);
      TrimIfNeeded();
      ok := true;
    }

    /** `_trim_if_needed`. */
    method TrimIfNeeded()
      modifies this
      ensures file == if old(file).None? then None else Some(Trimmed(old(file).value, maxBytes))
    {
      if file.None? {
        return;
      }
      var lines := file.value;
      if Size(lines) <= maxBytes {
        return;
      }
      var n := |lines|;
      var keep := if n < TrimKeep then n else TrimKeep;
      file := Some(lines[n - keep..]);
    }

    /** `flush(publish_fn, max_records)`. */
    method Flush(parse: string -> Option<Json>, accept: nat -> bool, maxRecords: nat) returns (r: FlushOutcome)
      modifies this
      ensures (file, r) == Flushed(old(file), parse, accept, maxRecords)
    {
      if file.None? {
        return Returned(0);
      }
      var lines := file.value;
      if lines == [] {
        file := None;
        return Returned(0);
      }
      var m := Min(maxRecords, |lines|);
      var kept: seq<string> := [];
      var sent: nat := 0;
      var i := 0;
      while i < m
        invariant 0 <= i <= m
        invariant WellFormed(lines[..i], parse)
        invariant kept == KeptLines(lines[..i], parse, accept)
        invariant sent == SentCount(lines[..i], parse, accept)
      {
        var line := lines[i];
        assert lines[..i + 1][..i] == lines[..i];
        assert lines[..i + 1][i] == line;
        var rec := parse(line);
        if rec.None? {
          i := i + 1;
          continue;
        }
        if !IsRecord(rec.value) {
          assert lines[..m][i] == line;
          return Raised;
        }
        if accept(i) {
          sent := sent + 1;
        } else {
          kept := kept + [line];
        }
        i := i + 1;
      }
      kept := kept + lines[m..];
      if kept != [] {
        file := Some(kept);
      } else {
        file := None;
      }
      r := Returned(sent);
    }
  }
}
