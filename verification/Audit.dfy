/** Capped on-disk audit log with a bounded memory window (audit.rs). */
module Audit {
  import opened Wrappers
  import opened Collections
  import opened Text

  datatype Record = Record(sequence: nat, message: string)

  // ------------------------------------------------------------ one record as a line

  /** `replace('\n', " ")`. */
  function Spaced(s: string): (r: string)
    ensures |r| == |s| && '\n' !in r
  {
    if s == "" then "" else [if s[0] == '\n' then ' ' else s[0]] + Spaced(s[1..])
  }

  function Plain(r: Record): Record { r.(message := Spaced(r.message)) }

  function PlainAll(rs: seq<Record>): (p: seq<Record>)
    ensures |p| == |rs| && forall i :: 0 <= i < |rs| ==> p[i] == Plain(rs[i])
  {
    seq(|rs|, i requires 0 <= i < |rs| => Plain(rs[i]))
  }

  function Line(r: Record): string { Show(r.sequence) + "\t" + Spaced(r.message) }

  function Format(r: Record): string { Line(r) + "\n" }

  function Encoded(rs: seq<Record>): string {
    if rs == [] then "" else Format(rs[0]) + Encoded(rs[1..])
  }

  function ParseRecord(line: string): Option<Record> {
    if '\t' !in line then None
    else
      var i := IndexOf(line, '\t');
      var sequence := Parse(line[..i], U64_MAX);
      if sequence.None? then None else Some(Record(sequence.value, line[i + 1..]))
  }

  function StripCr(s: string): string {
    if s != "" && s[|s| - 1] == '\r' then s[..|s| - 1] else s
  }

  /** `BufRead::lines`: a terminated line also loses one trailing carriage return. */
  function Lines(s: string): seq<string> {
    if s == "" then []
    else if '\n' !in s then [s]
    else
      var i := IndexOf(s, '\n');
      [StripCr(s[..i])] + Lines(s[i + 1..])
  }

  /** The records of a file, skipping lines that do not parse. */
  function Parsed(lines: seq<string>): seq<Record> {
    if lines == [] then []
    else
      var r := ParseRecord(lines[0]);
      (if r.Some? then [r.value] else []) + Parsed(lines[1..])
  }

  lemma {:induction false} SpacedTwice(s: string)
    requires '\n' !in s
    ensures Spaced(s) == s
  {
    if s != "" {
      SpacedTwice(s[1..]);
    }
  }

  lemma PlainFormat(r: Record)
    ensures Format(Plain(r)) == Format(r) && Plain(Plain(r)) == Plain(r)
  {
    SpacedTwice(Spaced(r.message));
  }

  lemma {:induction false} EncodedPlain(rs: seq<Record>)
    ensures Encoded(PlainAll(rs)) == Encoded(rs)
  {
    hide Format;
    if rs != [] {
      PlainFormat(rs[0]);
      EncodedPlain(rs[1..]);
      assert PlainAll(rs)[1..] == PlainAll(rs[1..]);
    }
  }

  lemma {:induction false} EncodedSnoc(rs: seq<Record>, r: Record)
    ensures Encoded(rs + [r]) == Encoded(rs) + Format(r)
  {
    hide Format;
    if rs == [] {
      assert [r][1..] == [];
    } else {
      assert (rs + [r])[1..] == rs[1..] + [r];
      EncodedSnoc(rs[1..], r);
    }
  }

  lemma DigitsHaveNo(n: nat)
    ensures '\t' !in Show(n) && '\n' !in Show(n)
  {
    assert forall i :: 0 <= i < |Show(n)| ==> IsDigit(Show(n)[i]);
  }

  lemma ParseOfLine(sequence: nat, message: string)
    requires sequence <= U64_MAX
    ensures ParseRecord(Show(sequence) + "\t" + message) == Some(Record(sequence, message))
  {
    var line := Show(sequence) + "\t" + message;
    DigitsHaveNo(sequence);
    IndexAfter(Show(sequence), '\t', message);
    ParseOfShow(sequence, U64_MAX);
    hide Show, Parse;
    assert line == Show(sequence) + ['\t'] + message;
    assert line[..|Show(sequence)|] == Show(sequence) && line[|Show(sequence)| + 1..] == message;
  }

  lemma LinesOfFormat(r: Record, rest: string)
    ensures Lines(Format(r) + rest) == [StripCr(Line(r))] + Lines(rest)
  {
    DigitsHaveNo(r.sequence);
    var body := Line(r);
    assert '\n' !in body;
    hide Line, StripCr;
    var s := Format(r) + rest;
    assert s == body + ['\n'] + rest;
    IndexAfter(body, '\n', rest);
    assert s[..|body|] == body && s[|body| + 1..] == rest;
    assert s[|body|] == '\n';
  }

  /** What reading a written record gives: newlines are blanks and one trailing CR is gone. */
  function ReadBack(r: Record): Record { Record(r.sequence, StripCr(Spaced(r.message))) }

  lemma ParseOfFormat(r: Record)
    requires r.sequence <= U64_MAX
    ensures ParseRecord(StripCr(Line(r))) == Some(ReadBack(r))
  {
    var m := Spaced(r.message);
    var line := Line(r);
    assert line == Show(r.sequence) + "\t" + m;
    if m != "" {
      assert line[|line| - 1] == m[|m| - 1];
      assert line[..|line| - 1] == Show(r.sequence) + "\t" + m[..|m| - 1];
    } else {
      assert line[|line| - 1] == '\t';
    }
    assert StripCr(line) == Show(r.sequence) + "\t" + StripCr(m);
    ParseOfLine(r.sequence, StripCr(m));
  }

  function ReadBackAll(rs: seq<Record>): (p: seq<Record>)
    ensures |p| == |rs| && forall i :: 0 <= i < |rs| ==> p[i] == ReadBack(rs[i])
  {
    seq(|rs|, i requires 0 <= i < |rs| => ReadBack(rs[i]))
  }

  lemma {:induction false} ParsedOfEncoded(rs: seq<Record>)
    requires forall r :: r in rs ==> r.sequence <= U64_MAX
    ensures Parsed(Lines(Encoded(rs))) == ReadBackAll(rs)
  {
    hide Format, Line, ReadBack, StripCr, ParseRecord;
    if rs != [] {
      LinesOfFormat(rs[0], Encoded(rs[1..]));
      ParseOfFormat(rs[0]);
      ParsedOfEncoded(rs[1..]);
      var lines := Lines(Encoded(rs));
      assert lines[0] == StripCr(Line(rs[0])) && lines[1..] == Lines(Encoded(rs[1..]));
      assert ReadBackAll(rs) == [ReadBack(rs[0])] + ReadBackAll(rs[1..]);
    }
  }

  // ------------------------------------------------------------ the log

  datatype Config = Config(maxBytes: nat, maxRecords: nat)
  datatype Log = Log(nextSeq: nat, records: seq<Record>, file: Option<string>)

  /** Whether the disk work of an append succeeds; if not, the file is left as some prefix of the work. */
  datatype Io = Done | Failed(left: Option<string>)

  function Pushed(records: seq<Record>, r: Record, max: nat): seq<Record> {
    (if |records| == max && records != [] then records[1..] else records) + [r]
  }

  /** Oldest records leave until the rest fits the byte budget. */
  function Trimmed(records: seq<Record>, maxBytes: nat): seq<Record> {
    if records == [] || |Encoded(records)| <= maxBytes then records else Trimmed(records[1..], maxBytes)
  }

  function Appended(c: Config, log: Log, message: string, io: Io): Log {
    var r := Record(log.nextSeq, message);
    var ring := Pushed(log.records, r, c.maxRecords);
    var next := SaturatingInc(log.nextSeq);
    var current := log.file.GetOr("");
    if |current| + |Format(r)| > c.maxBytes then
      var kept := Trimmed(ring, c.maxBytes);
      Log(next, kept, if io.Done? then Some(Encoded(kept)) else io.left)
    else Log(next, ring, if io.Done? then Some(current + Format(r)) else io.left)
  }

  function Last(rs: seq<Record>, max: nat): seq<Record> {
    if |rs| <= max then rs else rs[|rs| - max..]
  }

  /** One more than the largest sequence number, or 1. */
  function NextAfter(rs: seq<Record>): nat {
    if rs == [] then 1
    else
      var rest, mine := NextAfter(rs[..|rs| - 1]), SaturatingInc(rs[|rs| - 1].sequence);
      if mine > rest then mine else rest
  }

  /** `open` on an existing or missing file. */
  function Opened(c: Config, file: Option<string>): Log {
    var rs := Parsed(Lines(file.GetOr("")));
    Log(NextAfter(rs), Last(rs, c.maxRecords), file)
  }

  // ------------------------------------------------------------ memory and disk agree

  predicate Consecutive(rs: seq<Record>) {
    forall i :: 0 <= i < |rs| - 1 ==> rs[i + 1].sequence == rs[i].sequence + 1
  }

  /** `disk` is what the file holds, and memory is its newest part. */
  ghost predicate Synced(c: Config, log: Log, disk: seq<Record>) {
    && 0 < c.maxRecords && 1 <= log.nextSeq
    && (log.file.None? ==> disk == [])
    && (log.file.Some? ==> log.file.value == Encoded(disk) && |Encoded(disk)| <= c.maxBytes)
    && PlainAll(disk) == disk
    && Consecutive(disk) && (disk != [] ==> disk[|disk| - 1].sequence + 1 == log.nextSeq)
    && PlainAll(log.records) == Last(disk, c.maxRecords)
  }

  /** `kept` is the longest tail of the window that the byte cap admits. */
  ghost predicate LongestFitting(window: seq<Record>, kept: seq<Record>, maxBytes: nat) {
    exists k ::
      && 0 <= k <= |window| && kept == window[k..] && |Encoded(window[k..])| <= maxBytes
      && forall j :: 0 <= j < k ==> |Encoded(window[j..])| > maxBytes
  }

  lemma {:induction false} TrimmedIsSuffix(records: seq<Record>, maxBytes: nat) returns (k: nat)
    ensures k <= |records| && Trimmed(records, maxBytes) == records[k..] && |Encoded(records[k..])| <= maxBytes
    ensures forall j :: 0 <= j < k ==> |Encoded(records[j..])| > maxBytes
  {
    if records == [] || |Encoded(records)| <= maxBytes {
      k := 0;
      assert records[0..] == records;
    } else {
      k := TrimmedIsSuffix(records[1..], maxBytes);
      k := k + 1;
      assert records[1..][k - 1..] == records[k..];
      forall j | 0 <= j < k ensures |Encoded(records[j..])| > maxBytes {
        if j > 0 {
          assert records[1..][j - 1..] == records[j..];
        } else {
          assert records[0..] == records;
        }
      }
    }
  }

  lemma {:induction false} TrimmedKeepsLast(records: seq<Record>, maxBytes: nat)
    requires records != []
    ensures Trimmed(records, maxBytes) != [] <==> |Format(records[|records| - 1])| <= maxBytes
  {
    hide Format;
    if |Encoded(records)| > maxBytes {
      if |records| == 1 {
        assert Encoded(records[1..]) == "";
        assert Encoded(records) == Format(records[0]);
      } else {
        TrimmedKeepsLast(records[1..], maxBytes);
      }
    } else {
      EncodedCoversLast(records);
    }
  }

  lemma {:induction false} EncodedCoversLast(records: seq<Record>)
    requires records != []
    ensures |Encoded(records)| >= |Format(records[|records| - 1])|
  {
    hide Format;
    if |records| > 1 {
      EncodedCoversLast(records[1..]);
    }
  }

  lemma PlainSuffix(rs: seq<Record>, k: nat)
    requires k <= |rs|
    ensures PlainAll(rs[k..]) == PlainAll(rs)[k..]
  {
  }

  /** Pushing onto the ring is appending to the disk and looking at the newest part. */
  lemma PushedWindow(records: seq<Record>, disk: seq<Record>, r: Record, max: nat)
    requires 0 < max && PlainAll(records) == Last(disk, max)
    ensures PlainAll(Pushed(records, r, max)) == Last(disk + [Plain(r)], max)
  {
    hide Plain;
    var a, b := PlainAll(Pushed(records, r, max)), Last(disk + [Plain(r)], max);
    assert |a| == |b|;
  }

  /** A suffix of consecutive records that ends just below `next`. */
  predicate EndsBelow(rs: seq<Record>, next: nat) {
    Consecutive(rs) && (rs != [] ==> rs[|rs| - 1].sequence + 1 == next)
  }

  lemma PushedEnds(c: Config, log: Log, disk: seq<Record>, r: Record)
    requires Synced(c, log, disk) && r.sequence == log.nextSeq
    ensures EndsBelow(disk + [Plain(r)], log.nextSeq + 1)
    ensures EndsBelow(PlainAll(Pushed(log.records, r, c.maxRecords)), log.nextSeq + 1)
  {
    hide Encoded, Spaced;
    var grown := disk + [Plain(r)];
    assert EndsBelow(grown, log.nextSeq + 1);
    PushedWindow(log.records, disk, r, c.maxRecords);
    SuffixEnds(grown, log.nextSeq + 1, |grown| - |Last(grown, c.maxRecords)|);
  }

  lemma SuffixEnds(rs: seq<Record>, next: nat, k: nat)
    requires EndsBelow(rs, next) && k <= |rs|
    ensures EndsBelow(rs[k..], next)
  {
    var t := rs[k..];
    forall i | 0 <= i < |t| - 1 ensures t[i + 1].sequence == t[i].sequence + 1 {
      assert t[i] == rs[k + i] && t[i + 1] == rs[k + i + 1];
    }
  }

  /**
   Every append, whatever the message, keeps memory the newest part of the disk and the file under its cap.
   A line that fits is only added. Otherwise the disk becomes the memory window, with the new record, less as
   few of its oldest records as the cap demands: nothing is left only if the new line alone exceeds the cap.
   */
  lemma AppendSyncs(c: Config, log: Log, disk: seq<Record>, message: string) returns (disk': seq<Record>)
    requires Synced(c, log, disk) && log.nextSeq < U64_MAX
    ensures Synced(c, Appended(c, log, message, Done), disk')
    ensures forall r :: r in disk' ==> r in disk || r == Plain(Record(log.nextSeq, message))
    ensures disk' != [] <==> |Format(Record(log.nextSeq, message))| <= c.maxBytes
    ensures var r := Plain(Record(log.nextSeq, message));
            if |Encoded(disk)| + |Format(r)| <= c.maxBytes then disk' == disk + [r]
            else LongestFitting(Last(disk + [r], c.maxRecords), disk', c.maxBytes)
  {
    var r := Record(log.nextSeq, message);
    var ring := Pushed(log.records, r, c.maxRecords);
    PushedWindow(log.records, disk, r, c.maxRecords);
    PushedEnds(c, log, disk, r);
    PlainFormat(r);
    EncodedSnoc(disk, Plain(r));
    FileIsDisk(c, log, disk);
    hide Encoded, Format, Plain;
    if |log.file.GetOr("")| + |Format(r)| > c.maxBytes {
      disk' := TrimCase(c, log, disk, r);
    } else {
      disk' := disk + [Plain(r)];
      AppendCase(c, log, disk, r);
    }
  }

  lemma AppendCase(c: Config, log: Log, disk: seq<Record>, r: Record)
    requires Synced(c, log, disk) && log.nextSeq < U64_MAX && r.sequence == log.nextSeq
    requires |log.file.GetOr("")| + |Format(r)| <= c.maxBytes
    ensures Synced(c, Appended(c, log, r.message, Done), disk + [Plain(r)])
  {
    var grown := disk + [Plain(r)];
    PushedWindow(log.records, disk, r, c.maxRecords);
    PushedEnds(c, log, disk, r);
    PlainFormat(r);
    EncodedSnoc(disk, Plain(r));
    assert disk == [] ==> Encoded(disk) == "";
    hide Encoded, Format, Pushed, Last, Consecutive, Spaced;
    assert PlainAll(grown) == grown;
  }

  lemma TrimCase(c: Config, log: Log, disk: seq<Record>, r: Record) returns (disk': seq<Record>)
    requires Synced(c, log, disk) && log.nextSeq < U64_MAX && r.sequence == log.nextSeq
    requires |log.file.GetOr("")| + |Format(r)| > c.maxBytes
    ensures Synced(c, Appended(c, log, r.message, Done), disk')
    ensures forall x :: x in disk' ==> x in disk || x == Plain(r)
    ensures disk' != [] <==> |Format(r)| <= c.maxBytes
    ensures LongestFitting(Last(disk + [Plain(r)], c.maxRecords), disk', c.maxBytes)
  {
    hide Encoded, Format, Trimmed, Spaced, Synced, Pushed, Last, LongestFitting, Plain, Appended, EndsBelow;
    var ring := Pushed(log.records, r, c.maxRecords);
    var k := TrimmedIsSuffix(ring, c.maxBytes);
    disk' := PlainAll(ring[k..]);
    RingShape(c, log, disk, r);
    PushedWindow(log.records, disk, r, c.maxRecords);
    PushedEnds(c, log, disk, r);
    TrimmedKeepsLast(ring, c.maxBytes);
    TrimMembers(ring, disk, r, c.maxRecords, k);
    TrimIsLongest(ring, k, c.maxBytes);
    TrimSyncs(c, ring, k, log.nextSeq + 1);
  }

  /** What an append that exceeds the cap leaves, and the ring it starts from. */
  lemma RingShape(c: Config, log: Log, disk: seq<Record>, r: Record)
    requires Synced(c, log, disk) && log.nextSeq < U64_MAX && r.sequence == log.nextSeq
    ensures PlainAll(log.records) == Last(disk, c.maxRecords) && 0 < c.maxRecords && 1 <= log.nextSeq
    ensures var ring := Pushed(log.records, r, c.maxRecords);
            && 0 < |ring| <= c.maxRecords && ring[|ring| - 1] == r
            && (|log.file.GetOr("")| + |Format(r)| > c.maxBytes ==>
                  var kept := Trimmed(ring, c.maxBytes);
                  Appended(c, log, r.message, Done) == Log(log.nextSeq + 1, kept, Some(Encoded(kept))))
  {
    hide Encoded, Format, Trimmed, Consecutive;
  }

  lemma FileIsDisk(c: Config, log: Log, disk: seq<Record>)
    requires Synced(c, log, disk)
    ensures log.file.GetOr("") == Encoded(disk)
  {
    assert Encoded([]) == "";
    hide Consecutive, Last;
  }

  lemma {:induction false} TrimIsLongest(ring: seq<Record>, k: nat, maxBytes: nat)
    requires k <= |ring| && |Encoded(ring[k..])| <= maxBytes
    requires forall j :: 0 <= j < k ==> |Encoded(ring[j..])| > maxBytes
    ensures LongestFitting(PlainAll(ring), PlainAll(ring[k..]), maxBytes)
  {
    hide Encoded, Plain;
    forall j | 0 <= j <= k ensures |Encoded(PlainAll(ring)[j..])| == |Encoded(ring[j..])| {
      PlainSuffix(ring, j);
      EncodedPlain(ring[j..]);
    }
    PlainSuffix(ring, k);
  }

  lemma TrimMembers(ring: seq<Record>, disk: seq<Record>, r: Record, max: nat, k: nat)
    requires k <= |ring| && PlainAll(ring) == Last(disk + [Plain(r)], max)
    ensures forall x :: x in PlainAll(ring[k..]) ==> x in disk || x == Plain(r)
  {
    PlainSuffix(ring, k);
    hide Plain;
    var grown := disk + [Plain(r)];
    forall x | x in PlainAll(ring[k..]) ensures x in disk || x == Plain(r) {
      assert x in PlainAll(ring);
      assert x in Last(grown, max);
      assert x in grown;
    }
  }

  lemma PlainAllTwice(rs: seq<Record>)
    ensures PlainAll(PlainAll(rs)) == PlainAll(rs)
  {
    forall i | 0 <= i < |rs| ensures PlainAll(PlainAll(rs))[i] == PlainAll(rs)[i] {
      PlainFormat(rs[i]);
    }
  }

  /** A rewritten disk is exactly the trimmed memory. */
  lemma TrimSyncs(c: Config, ring: seq<Record>, k: nat, next: nat)
    requires k <= |ring| <= c.maxRecords && 0 < c.maxRecords && 1 <= next
    requires EndsBelow(PlainAll(ring), next) && |Encoded(ring[k..])| <= c.maxBytes
    ensures Synced(c, Log(next, ring[k..], Some(Encoded(ring[k..]))), PlainAll(ring[k..]))
  {
    hide Encoded, Plain, Consecutive;
    var kept := ring[k..];
    PlainSuffix(ring, k);
    SuffixEnds(PlainAll(ring), next, k);
    EncodedPlain(kept);
    PlainAllTwice(kept);
  }

  // ------------------------------------------------------------ reopening

  predicate EndsInCr(s: string) { s != "" && s[|s| - 1] == '\r' }

  lemma {:induction false} NextAfterLast(rs: seq<Record>)
    requires Consecutive(rs) && rs != [] && rs[|rs| - 1].sequence < U64_MAX
    ensures NextAfter(rs) == rs[|rs| - 1].sequence + 1
  {
    var front := rs[..|rs| - 1];
    if front != [] {
      assert Consecutive(front);
      assert rs[|rs| - 2 + 1].sequence == rs[|rs| - 2].sequence + 1;
      NextAfterLast(front);
    }
  }

  lemma {:induction false} SequencesBelow(rs: seq<Record>, next: nat)
    requires EndsBelow(rs, next)
    ensures forall r :: r in rs ==> r.sequence < next
  {
    if rs != [] {
      var front := rs[..|rs| - 1];
      assert EndsBelow(front, rs[|rs| - 1].sequence) by {
        if front != [] {
          assert rs[|rs| - 2 + 1].sequence == rs[|rs| - 2].sequence + 1;
        }
      }
      SequencesBelow(front, rs[|rs| - 1].sequence);
      assert rs == front + [rs[|rs| - 1]];
    }
  }

  lemma OpenedReads(c: Config, log: Log, disk: seq<Record>)
    requires Synced(c, log, disk) && log.nextSeq <= U64_MAX
    ensures var again := Opened(c, log.file);
            && again.records == Last(ReadBackAll(disk), c.maxRecords)
            && again.nextSeq == if disk == [] then 1 else log.nextSeq
  {
    SequencesBelow(disk, log.nextSeq);
    ParsedOfEncoded(disk);
    assert Encoded([]) == "";
    hide Encoded, Parsed, Lines, ReadBack;
    if disk != [] {
      var rs := ReadBackAll(disk);
      assert forall i :: 0 <= i < |disk| ==> rs[i].sequence == disk[i].sequence by { SameSequences(disk); }
      NextAfterLast(rs);
    }
  }

  lemma SameSequences(rs: seq<Record>)
    ensures forall i :: 0 <= i < |rs| ==> ReadBackAll(rs)[i].sequence == rs[i].sequence
  {
  }

  /** Reopening gives back the sequence counter exactly when the file is not empty or nothing was ever written. */
  lemma ReopenCounter(c: Config, log: Log, disk: seq<Record>)
    requires Synced(c, log, disk) && log.nextSeq <= U64_MAX
    ensures Opened(c, log.file).nextSeq == log.nextSeq <==> disk != [] || log.nextSeq == 1
  {
    OpenedReads(c, log, disk);
  }

  /** Reopening gives back the window exactly when no message of the window ends in a carriage return. */
  lemma ReopenWindow(c: Config, log: Log, disk: seq<Record>)
    requires Synced(c, log, disk) && log.nextSeq <= U64_MAX
    ensures Opened(c, log.file).records == PlainAll(log.records) <==>
            forall r :: r in PlainAll(log.records) ==> !EndsInCr(r.message)
  {
    hide *;
    OpenedReads(c, log, disk);
    SyncedWindow(c, log, disk);
    WindowOfDisk(disk, c.maxRecords);
    ReadBackSame(Last(disk, c.maxRecords));
  }

  /** After any append, reopening gives back the counter if and only if the appended line fits the cap. */
  lemma ReopenAfterAppend(c: Config, log: Log, disk: seq<Record>, message: string)
    requires Synced(c, log, disk) && log.nextSeq < U64_MAX
    ensures var after := Appended(c, log, message, Done);
            Opened(c, after.file).nextSeq == after.nextSeq <==> |Format(Record(log.nextSeq, message))| <= c.maxBytes
  {
    hide Opened, Appended, Format, Synced;
    var disk' := AppendSyncs(c, log, disk, message);
    AppendedSeq(c, log, message);
    SyncedSeq(c, log, disk);
    ReopenCounter(c, Appended(c, log, message, Done), disk');
  }

  /** A line of four bytes against a cap of three: nothing is kept, and reopening numbers from 1 again. */
  lemma OversizeLineResets()
    ensures var log := Appended(Config(3, 1), Opened(Config(3, 1), None), "x", Done);
            log.file == Some("") && log.records == [] && log.nextSeq == 2 && Opened(Config(3, 1), log.file).nextSeq == 1
  {
    var c, r := Config(3, 1), Record(1, "x");
    assert Opened(c, None) == Log(1, [], None);
    assert Spaced("x") == "x" by { assert "x"[1..] == ""; }
    assert |Format(r)| == 4;
    hide Format;
    assert Pushed([], r, 1) == [r];
    TrimmedKeepsLast([r], 3);
    assert Trimmed([r], 3) == [] && Encoded([]) == "" && Lines("") == [];
  }

  /** A message that is one carriage return comes back empty. */
  lemma CrMessageIsCut()
    ensures var log := Appended(Config(9, 1), Opened(Config(9, 1), None), "\r", Done);
            log.records == [Record(1, "\r")] && Opened(Config(9, 1), log.file).records == [Record(1, "")]
  {
    var c, r := Config(9, 1), Record(1, "\r");
    StartSyncs(c);
    assert Opened(c, None) == Log(1, [], None);
    assert Spaced("\r") == "\r" by { assert "\r"[1..] == ""; }
    assert |Format(r)| == 4;
    assert ReadBack(r) == Record(1, "");
    assert Encoded([r]) == Format(r) by { assert [r][1..] == []; hide Format; }
    ParsedOfEncoded([r]);
    hide Format, Encoded, ReadBack, Parsed, Lines;
    assert "" + Format(r) == Format(r);
    assert ReadBackAll([r]) == [ReadBack(r)];
  }

  lemma WindowOfDisk(disk: seq<Record>, max: nat)
    requires PlainAll(disk) == disk
    ensures PlainAll(Last(disk, max)) == Last(disk, max)
    ensures Last(ReadBackAll(disk), max) == ReadBackAll(Last(disk, max))
  {
    hide Plain, ReadBack;
    var k := |disk| - |Last(disk, max)|;
    assert Last(disk, max) == disk[k..];
    PlainSuffix(disk, k);
    ReadBackSuffix(disk, k);
  }

  lemma ReadBackSuffix(rs: seq<Record>, k: nat)
    requires k <= |rs|
    ensures ReadBackAll(rs[k..]) == ReadBackAll(rs)[k..]
    ensures |ReadBackAll(rs)| == |rs|
  {
    hide ReadBack;
  }

  lemma ReadBackSame(rs: seq<Record>)
    requires PlainAll(rs) == rs
    ensures ReadBackAll(rs) == rs <==> forall r :: r in rs ==> !EndsInCr(r.message)
  {
    forall i | 0 <= i < |rs| ensures ReadBackAll(rs)[i] == rs[i] <==> !EndsInCr(rs[i].message) {
      assert PlainAll(rs)[i] == rs[i];
      assert Spaced(rs[i].message) == rs[i].message;
    }
    hide ReadBack, EndsInCr, PlainAll;
    if ReadBackAll(rs) == rs {
      forall r | r in rs ensures !EndsInCr(r.message) {
        var i :| 0 <= i < |rs| && rs[i] == r;
        assert ReadBackAll(rs)[i] == rs[i];
      }
    }
  }

  lemma {:induction false} ReopenSyncs(c: Config, log: Log, disk: seq<Record>)
    requires Synced(c, log, disk) && log.nextSeq <= U64_MAX
    requires forall r :: r in disk ==> !EndsInCr(r.message)
    ensures Synced(c, Opened(c, log.file), disk)
    ensures Opened(c, log.file).records == Last(disk, c.maxRecords)
  {
    hide Encoded, Opened, Consecutive, ReadBackAll, EndsInCr, PlainAll, Last;
    OpenedReads(c, log, disk);
    ReadBackSame(disk);
    WindowOfDisk(disk, c.maxRecords);
    OpenedFile(c, log.file);
  }

  lemma OpenedFile(c: Config, file: Option<string>)
    ensures Opened(c, file).file == file
  {
  }

  // ------------------------------------------------------------ runs

  datatype Step = Append(message: string) | Reopen

  /** The log after `n` steps from a missing file, all disk work succeeding. */
  function At(c: Config, steps: seq<Step>, n: nat): Log
    requires n <= |steps|
  {
    if n == 0 then Opened(c, None)
    else
      var log := At(c, steps, n - 1);
      match steps[n - 1]
      case Append(message) => Appended(c, log, message, Done)
      case Reopen => Opened(c, log.file)
  }

  predicate NoCr(steps: seq<Step>) {
    forall i :: 0 <= i < |steps| && steps[i].Append? ==> !EndsInCr(steps[i].message)
  }

  /** Every appended line fits the cap on its own. */
  ghost predicate AllFit(c: Config, steps: seq<Step>) {
    forall i :: 0 <= i < |steps| && steps[i].Append? ==>
      |Format(Record(At(c, steps, i).nextSeq, steps[i].message))| <= c.maxBytes
  }

  lemma {:induction false} SpacedEnd(s: string)
    ensures EndsInCr(Spaced(s)) <==> EndsInCr(s)
  {
    if s != "" {
      SpacedEnd(s[1..]);
      assert |s| > 1 ==> s[|s| - 1] == s[1..][|s| - 2] && Spaced(s)[|s| - 1] == Spaced(s[1..])[|s| - 2];
    }
  }

  /**
   In every run of appends and restarts whose messages do not end in CR: memory is the newest part of the disk,
   the file never exceeds its cap, and the disk holds something once a line that fits was written.
   */
  lemma {:induction false} RunSyncs(c: Config, steps: seq<Step>, n: nat) returns (disk: seq<Record>)
    requires n <= |steps| < U64_MAX && 0 < c.maxRecords && NoCr(steps)
    ensures Synced(c, At(c, steps, n), disk) && At(c, steps, n).nextSeq <= n + 1
    ensures forall r :: r in disk ==> !EndsInCr(r.message)
    ensures AllFit(c, steps) ==> disk != [] || At(c, steps, n).nextSeq == 1
  {
    hide Synced, Opened, Appended, EndsInCr, Format, Spaced;
    if n == 0 {
      disk := [];
      StartSyncs(c);
    } else {
      var before := RunSyncs(c, steps, n - 1);
      var log := At(c, steps, n - 1);
      match steps[n - 1]
      case Append(message) =>
        disk := AppendSyncs(c, log, before, message);
        SpacedEnd(message);
        AppendedSeq(c, log, message);
      case Reopen =>
        disk := before;
        ReopenSyncs(c, log, disk);
        OpenedReads(c, log, disk);
        SyncedSeq(c, log, disk);
    }
  }

  lemma StartSyncs(c: Config)
    requires 0 < c.maxRecords
    ensures Synced(c, Opened(c, None), []) && Opened(c, None).nextSeq == 1
  {
    assert Opened(c, None) == Log(1, [], None);
  }

  lemma AppendedSeq(c: Config, log: Log, message: string)
    ensures Appended(c, log, message, Done).nextSeq == SaturatingInc(log.nextSeq)
  {
  }

  lemma SyncedSeq(c: Config, log: Log, disk: seq<Record>)
    requires Synced(c, log, disk)
    ensures 1 <= log.nextSeq
  {
  }

  /** Reopening at any point of such a run restores the same window and the same counter. */
  lemma ReopenRestores(c: Config, steps: seq<Step>, n: nat)
    requires n <= |steps| < U64_MAX && 0 < c.maxRecords && NoCr(steps) && AllFit(c, steps)
    ensures var log, again := At(c, steps, n), Opened(c, At(c, steps, n).file);
            again.records == PlainAll(log.records) && again.nextSeq == log.nextSeq && again.file == log.file
  {
    hide EndsInCr, AllFit, At, Synced, Opened, NoCr;
    var log := At(c, steps, n);
    var disk := RunSyncs(c, steps, n);
    ReopenSyncs(c, log, disk);
    ReopenCounter(c, log, disk);
    SyncedWindow(c, log, disk);
    OpenedFile(c, log.file);
  }

  lemma SyncedWindow(c: Config, log: Log, disk: seq<Record>)
    requires Synced(c, log, disk)
    ensures PlainAll(log.records) == Last(disk, c.maxRecords) && PlainAll(disk) == disk
  {
  }

  // ------------------------------------------------------------ reading what others wrote

  /** Newlines become blanks, one for one, and nothing else changes. */
  lemma {:induction false} SpacedLetters(s: string)
    ensures forall i :: 0 <= i < |s| ==> Spaced(s)[i] == if s[i] == '\n' then ' ' else s[i]
  {
    if s != "" {
      SpacedLetters(s[1..]);
      assert forall i :: 0 < i < |s| ==> s[i] == s[1..][i - 1] && Spaced(s)[i] == Spaced(s[1..])[i - 1];
    }
  }

  /** A failed append leaves on disk whatever the failure left there, and in memory what a successful one leaves. */
  lemma FailedAppend(c: Config, log: Log, message: string, left: Option<string>)
    ensures Appended(c, log, message, Failed(left)) == Appended(c, log, message, Done).(file := left)
  {
  }

  /** A line that is no record is skipped, and those around it are read. */
  lemma {:induction false} MalformedIsSkipped(before: seq<string>, bad: string, after: seq<string>)
    requires ParseRecord(bad).None?
    ensures Parsed(before + [bad] + after) == Parsed(before) + Parsed(after)
  {
    hide ParseRecord;
    if before == [] {
      assert ([bad] + after)[1..] == after;
      assert before + [bad] + after == [bad] + after;
      assert [] + Parsed(after) == Parsed(after);
    } else {
      assert (before + [bad] + after)[1..] == before[1..] + [bad] + after;
      MalformedIsSkipped(before[1..], bad, after);
      var head := if ParseRecord(before[0]).Some? then [ParseRecord(before[0]).value] else [];
      assert Parsed(before) == head + Parsed(before[1..]);
      hide Parsed;
      assert head + (Parsed(before[1..]) + Parsed(after)) == head + Parsed(before[1..]) + Parsed(after);
    }
  }

  /** Lines without a tab, and lines whose first part is no number that fits, are no records. */
  lemma RecordShape(line: string)
    ensures '\t' !in line ==> ParseRecord(line) == None
    ensures ParseRecord(line).Some? ==> exists i ::
              && 0 <= i < |line| && line[i] == '\t' && '\t' !in line[..i]
              && Parse(line[..i], U64_MAX) == Some(ParseRecord(line).value.sequence)
              && line[i + 1..] == ParseRecord(line).value.message
  {
    hide Parse;
    if '\t' in line {
      var i := IndexOf(line, '\t');
      assert line[i] == '\t';
    }
  }

  /** The next number is above every number that was read, and no higher than it has to be. */
  lemma {:induction false} NextAfterIsLeast(rs: seq<Record>)
    ensures NextAfter(rs) >= 1
    ensures forall r :: r in rs ==> SaturatingInc(r.sequence) <= NextAfter(rs)
    ensures NextAfter(rs) > 1 ==> exists r :: r in rs && NextAfter(rs) == SaturatingInc(r.sequence)
  {
    if rs != [] {
      var front, last := rs[..|rs| - 1], rs[|rs| - 1];
      NextAfterIsLeast(front);
      assert rs == front + [last];
      assert last in rs;
    }
  }

  // ------------------------------------------------------------ the mutable log

  lemma {:induction false} ParsedSnoc(lines: seq<string>, line: string)
    ensures Parsed(lines + [line]) ==
            Parsed(lines) + if ParseRecord(line).Some? then [ParseRecord(line).value] else []
  {
    hide ParseRecord;
    if lines == [] {
      assert [line][1..] == [];
    } else {
      assert (lines + [line])[1..] == lines[1..] + [line];
      ParsedSnoc(lines[1..], line);
      var head := if ParseRecord(lines[0]).Some? then [ParseRecord(lines[0]).value] else [];
      var last := if ParseRecord(line).Some? then [ParseRecord(line).value] else [];
      var middle := Parsed(lines[1..]);
      assert Parsed(lines) == head + middle;
      assert Parsed(lines + [line]) == head + (middle + last);
      hide Parsed;
      assert head + (middle + last) == head + middle + last;
    }
  }

  lemma LastSnoc(rs: seq<Record>, r: Record, max: nat)
    requires 0 < max
    ensures Last(rs + [r], max) == Pushed(Last(rs, max), r, max)
  {
  }

  lemma NextSnoc(rs: seq<Record>, r: Record)
    ensures var mine := SaturatingInc(r.sequence);
            NextAfter(rs + [r]) == if mine > NextAfter(rs) then mine else NextAfter(rs)
  {
    assert (rs + [r])[..|rs|] == rs;
  }

  /** The loop of `load_from_disk`. */
  method LoadRecords(lines: seq<string>, max: nat) returns (records: seq<Record>, nextSeq: nat)
    requires 0 < max
    ensures records == Last(Parsed(lines), max) && nextSeq == NextAfter(Parsed(lines))
  {
    hide ParseRecord, Parsed, NextAfter, Last, SaturatingInc;
    records, nextSeq := [], 1;
    LoadedNothing(max);
    var i := 0;
    while i < |lines|
      invariant 0 <= i <= |lines|
      invariant records == Last(Parsed(lines[..i]), max) && nextSeq == NextAfter(Parsed(lines[..i]))
    {
      var parsed := ParseRecord(lines[i]);
      ParsedSnoc(lines[..i], lines[i]);
      assert lines[..i + 1] == lines[..i] + [lines[i]];
      if parsed.Some? {
        LastSnoc(Parsed(lines[..i]), parsed.value, max);
        NextSnoc(Parsed(lines[..i]), parsed.value);
        var mine := SaturatingInc(parsed.value.sequence);
        nextSeq := if mine > nextSeq then mine else nextSeq;
        if |records| == max {
          records := records[1..];
        }
        records := records + [parsed.value];
      } else {
        assert Parsed(lines[..i]) + [] == Parsed(lines[..i]);
      }
      i := i + 1;
    }
    assert lines[..i] == lines;
  }

  lemma LoadedNothing(max: nat)
    ensures Last(Parsed([]), max) == [] && NextAfter(Parsed([])) == 1
  {
  }

  class AuditLog {
    const maxBytes: nat
    const maxRecords: nat
    var nextSeq: nat
    var records: seq<Record>
    var file: Option<string>

    ghost function State(): Log reads this { Log(nextSeq, records, file) }
    ghost function Bounds(): Config { Config(maxBytes, maxRecords) }

    /** `open` and `load_from_disk`. */
    constructor (maxBytes: nat, maxRecords: nat, file: Option<string>)
      requires 0 < maxRecords
      ensures this.maxBytes == maxBytes && this.maxRecords == maxRecords && State() == Opened(Bounds(), file)
    {
      this.maxBytes, this.maxRecords, this.file := maxBytes, maxRecords, file;
      var loaded, next := LoadRecords(Lines(file.GetOr("")), maxRecords);
      records, nextSeq := loaded, next;
    }

    /** `append` up to the fan-out. */
    method Append(message: string, io: Io)
      requires 0 < maxRecords
      modifies this
      ensures State() == Appended(Bounds(), old(State()), message, io)
    {
      hide Encoded, Trimmed, Format;
      var record := Record(nextSeq, message);
      nextSeq := SaturatingInc(nextSeq);
      if |records| == maxRecords {
        records := records[1..];
      }
      records := records + [record];
      PersistRecord(record, io);
    }

    method PersistRecord(record: Record, io: Io)
      modifies this`records, this`file
      ensures var current := old(file).GetOr("");
              if |current| + |Format(record)| > maxBytes then
                records == Trimmed(old(records), maxBytes) &&
                file == if io.Done? then Some(Encoded(records)) else io.left
              else
                records == old(records) && file == if io.Done? then Some(current + Format(record)) else io.left
    {
      hide Encoded, Trimmed, Format;
      var line := Format(record);
      var current := file.GetOr("");
      if |current| + |line| > maxBytes {
        TrimToDiskBudget();
        var content := RewriteFromMemory();
        file := if io.Done? then Some(content) else io.left;
        return;
      }
      file := if io.Done? then Some(current + line) else io.left;
    }

    method TrimToDiskBudget()
      modifies this`records
      ensures records == Trimmed(old(records), maxBytes)
    {
      while records != []
        invariant Trimmed(records, maxBytes) == Trimmed(old(records), maxBytes)
        decreases |records|
      {
        if |Encoded(records)| <= maxBytes {
          break;
        }
        records := records[1..];
      }
    }

    method RewriteFromMemory() returns (content: string)
      ensures content == Encoded(records)
    {
      content := "";
      var i := 0;
      while i < |records|
        invariant 0 <= i <= |records| && content == Encoded(records[..i])
      {
        EncodedSnoc(records[..i], records[i]);
        assert records[..i + 1] == records[..i] + [records[i]];
        content := content + Format(records[i]);
        i := i + 1;
      }
      assert records[..i] == records;
    }
  }
}
