/** The row codecs of the IPC protocol: a printer and a parser that undo each other (crates/interfire-proto). */
module Codec {
  import opened Wrappers
  import opened Collections
  import opened Text

  // ------------------------------------------------------------ escaping

  /** `replace` of one character by a string. */
  function ReplaceChar(s: string, c: char, by': string): string {
    if s == "" then "" else (if s[0] == c then by' else [s[0]]) + ReplaceChar(s[1..], c, by')
  }

  /** `replace` of a three-character pattern by one character, leftmost first. */
  function ReplaceCode(s: string, code: string, c: char): string
    requires |code| == 3
  {
    if s == "" then ""
    else if |s| >= 3 && s[..3] == code then [c] + ReplaceCode(s[3..], code, c)
    else [s[0]] + ReplaceCode(s[1..], code, c)
  }

  function Escape(s: string): string {
    ReplaceChar(ReplaceChar(ReplaceChar(s, '%', "%25"), '|', "%7C"), ';', "%3B")
  }

  function Unescape(s: string): string {
    ReplaceCode(ReplaceCode(ReplaceCode(s, "%3B", ';'), "%7C", '|'), "%25", '%')
  }

  /** Every `%` is followed by one of these characters. */
  predicate Follows(s: string, next: set<char>) {
    s == "" || ((s[0] == '%' ==> |s| > 1 && s[1] in next) && Follows(s[1..], next))
  }

  lemma CodeHit(rest: string, code: string, c: char)
    requires |code| == 3
    ensures ReplaceCode(code + rest, code, c) == [c] + ReplaceCode(rest, code, c)
  {
    assert (code + rest)[..3] == code && (code + rest)[3..] == rest;
  }

  lemma CodeMiss(s: string, code: string, c: char)
    requires |code| == 3 && s != "" && (s[0] != code[0] || |s| == 1 || s[1] != code[1])
    ensures ReplaceCode(s, code, c) == [s[0]] + ReplaceCode(s[1..], code, c)
  {
    if |s| >= 3 {
      assert s[..3][0] == s[0] && s[..3][1] == s[1];
    }
  }

  lemma {:induction false} EscapedPercent(s: string)
    ensures ReplaceCode(ReplaceChar(s, '%', "%25"), "%25", '%') == s
    ensures Follows(ReplaceChar(s, '%', "%25"), {'2'})
  {
    if s != "" {
      var rest := ReplaceChar(s[1..], '%', "%25");
      EscapedPercent(s[1..]);
      if s[0] == '%' {
        CodeHit(rest, "%25", '%');
        FollowsCode("%25", rest, {'2'});
      } else {
        assert ([s[0]] + rest)[1..] == rest;
        CodeMiss([s[0]] + rest, "%25", '%');
      }
    }
  }

  lemma FollowsCode(code: string, rest: string, next: set<char>)
    requires |code| == 3 && code[0] == '%' && code[1] in next && code[1] != '%' && code[2] != '%' && Follows(rest, next)
    ensures Follows(code + rest, next)
  {
    var s := code + rest;
    assert s[1..] == [code[1], code[2]] + rest;
    assert s[1..][1..] == [code[2]] + rest;
    assert s[1..][1..][1..] == rest;
  }

  /** Escaping one more character is undone by unescaping it, whatever was escaped before. */
  lemma {:induction false} EscapedChar(s: string, c: char, code: string, next: set<char>)
    requires |code| == 3 && code[0] == '%' && code[1] != '%' && code[2] != '%'
    requires c != '%' && c !in next && '%' !in next && code[1] !in next && Follows(s, next)
    ensures ReplaceCode(ReplaceChar(s, c, code), code, c) == s
    ensures Follows(ReplaceChar(s, c, code), next + {code[1]})
  {
    if s != "" {
      var rest := ReplaceChar(s[1..], c, code);
      EscapedChar(s[1..], c, code, next);
      if s[0] == c {
        CodeHit(rest, code, c);
        FollowsCode(code, rest, next + {code[1]});
      } else {
        var t := [s[0]] + rest;
        assert t[1..] == rest;
        if s[0] == '%' {
          assert rest[0] == s[1];
        }
        CodeMiss(t, code, c);
      }
    }
  }

  lemma {:induction false} ReplacedAway(s: string, c: char, by': string, d: char)
    requires d !in by' && (d == c || d !in s)
    ensures d !in ReplaceChar(s, c, by')
  {
    if s != "" {
      ReplacedAway(s[1..], c, by', d);
    }
  }

  /** Every string survives escaping, and the escaped form has neither separator. */
  lemma EscapeRoundTrip(s: string)
    ensures Unescape(Escape(s)) == s && '|' !in Escape(s) && ';' !in Escape(s)
  {
    var a := ReplaceChar(s, '%', "%25");
    var b := ReplaceChar(a, '|', "%7C");
    EscapedPercent(s);
    EscapedChar(a, '|', "%7C", {'2'});
    assert {'2'} + {'7'} == {'2', '7'};
    EscapedChar(b, ';', "%3B", {'2', '7'});
    ReplacedAway(a, '|', "%7C", '|');
    ReplacedAway(b, ';', "%3B", '|');
    ReplacedAway(b, ';', "%3B", ';');
  }

  // ------------------------------------------------------------ fields

  lemma {:induction false} SplitNOfJoin(parts: seq<string>, sep: char)
    requires parts != [] && forall i :: 0 <= i < |parts| - 1 ==> sep !in parts[i]
    ensures SplitN(Join(parts, sep), |parts|, sep) == parts
  {
    if |parts| > 1 {
      var rest := parts[1..];
      forall i | 0 <= i < |rest| - 1 ensures sep !in rest[i] {
        assert rest[i] == parts[i + 1];
      }
      SplitNOfJoin(rest, sep);
      SplitNFirst(parts[0], Join(rest, sep), |parts|, sep);
      assert parts == [parts[0]] + rest;
    }
  }

  /** All parts but the last are free of the separator, and no part holds a character the text lacks. */
  lemma {:induction false} SplitNParts(s: string, n: nat, sep: char, d: char)
    requires n > 0
    ensures var parts := SplitN(s, n, sep);
            && parts != []
            && (forall i :: 0 <= i < |parts| - 1 ==> sep !in parts[i])
            && (d !in s ==> forall i :: 0 <= i < |parts| ==> d !in parts[i])
  {
    if n > 1 && sep in s {
      var at := IndexOf(s, sep);
      var head, rest := s[..at], SplitN(s[at + 1..], n - 1, sep);
      SplitNParts(s[at + 1..], n - 1, sep, d);
      var parts := SplitN(s, n, sep);
      assert parts == [head] + rest && rest != [];
      forall i | 0 <= i < |parts| - 1 ensures sep !in parts[i] {
        assert i > 0 ==> parts[i] == rest[i - 1];
      }
      if d !in s {
        forall i | 0 <= i < |parts| ensures d !in parts[i] {
          assert i > 0 ==> parts[i] == rest[i - 1];
        }
      }
    }
  }

  lemma {:induction false} JoinLacks(parts: seq<string>, sep: char, d: char)
    requires d != sep && forall p :: p in parts ==> d !in p
    ensures d !in Join(parts, sep)
  {
    if |parts| > 1 {
      JoinLacks(parts[1..], sep, d);
    }
  }

  function JoinFront(parts: seq<string>, sep: char): string {
    if parts == [] then "" else parts[0] + [sep] + JoinFront(parts[1..], sep)
  }

  lemma {:induction false} JoinSnoc(parts: seq<string>, last: string, sep: char)
    ensures Join(parts + [last], sep) == JoinFront(parts, sep) + last
    ensures parts != [] ==> JoinFront(parts, sep) != "" && JoinFront(parts, sep)[|JoinFront(parts, sep)| - 1] == sep
  {
    if parts != [] {
      assert (parts + [last])[1..] == parts[1..] + [last];
      JoinSnoc(parts[1..], last, sep);
    }
  }

  // ------------------------------------------------------------ frames

  datatype ProtocolError = UnsupportedVersion | Malformed

  /** `Response::encode` for a list payload. */
  function Frame(name: string, payload: string): string {
    "v1 " + name + " " + payload + "\n"
  }

  function FramePayload(frame: string, name: string): Result<string, ProtocolError> {
    var fields := SplitN(TrimEol(frame), 3, ' ');
    if fields[0] != "v1" then
      if fields[0] != "" && fields[0][0] == 'v' then Err(UnsupportedVersion) else Err(Malformed)
    else if |fields| < 2 || fields[1] != name then Err(Malformed)
    else Ok(if |fields| < 3 then "" else fields[2])
  }

  lemma {:induction false} TrimSuffix(a: string, b: string)
    requires a != "" && !IsEol(a[|a| - 1])
    ensures TrimEol(a + b) == a + TrimEol(b)
  {
    if b == "" {
      assert a + b == a;
    } else if IsEol(b[|b| - 1]) {
      assert (a + b)[..|a + b| - 1] == a + b[..|b| - 1];
      TrimSuffix(a, b[..|b| - 1]);
    }
  }

  lemma {:induction false} TrimsToEnd(s: string)
    ensures TrimEol(s) == s <==> (s == "" || !IsEol(s[|s| - 1]))
    ensures |TrimEol(s)| <= |s| && TrimEol(s) == s[..|TrimEol(s)|]
  {
    if s != "" && IsEol(s[|s| - 1]) {
      TrimsToEnd(s[..|s| - 1]);
    }
  }

  /** A frame gives back its payload up to line ends at the very end. */
  lemma FrameRoundTrip(name: string, payload: string)
    requires ' ' !in name
    ensures FramePayload(Frame(name, payload), name) == Ok(TrimEol(payload))
  {
    var p := TrimEol(payload);
    TrimFrame(name, payload);
    FieldsOfLine(name, p);
    hide TrimEol, SplitN, Frame;
  }

  function Lead(name: string): string { "v1 " + name + " " }

  lemma TrimFrame(name: string, payload: string)
    ensures TrimEol(Frame(name, payload)) == Lead(name) + TrimEol(payload)
  {
    var lead, tail := Lead(name), payload + "\n";
    assert Frame(name, payload) == lead + tail;
    assert lead[|lead| - 1] == ' ';
    hide Frame, Lead;
    TrimSuffix(lead, tail);
    assert tail[|tail| - 1] == '\n' && tail[..|tail| - 1] == payload;
  }

  lemma FieldsOfLine(name: string, p: string)
    requires ' ' !in name
    ensures SplitN(Lead(name) + p, 3, ' ') == ["v1", name, p]
  {
    hide Lead, SplitN;
    LeadShape(name, p);
    SplitNFirst("v1", name + [' '] + p, 3, ' ');
    SplitNFirst(name, p, 2, ' ');
    SplitNLast(p, ' ');
    assert ["v1"] + ([name] + [p]) == ["v1", name, p];
  }

  lemma LeadShape(name: string, p: string)
    ensures Lead(name) + p == "v1" + [' '] + (name + [' '] + p)
  {
  }

  lemma SplitNLast(s: string, sep: char)
    ensures SplitN(s, 1, sep) == [s]
  {
  }

  /** Parse every part, or fail. */
  function Collect<R>(parts: seq<string>, parse: string -> Option<R>): Option<seq<R>> {
    if parts == [] then Some([])
    else
      var head, tail := parse(parts[0]), Collect(parts[1..], parse);
      if head.None? || tail.None? then None else Some([head.value] + tail.value)
  }

  lemma {:induction false} CollectAll<R>(parts: seq<string>, parse: string -> Option<R>, rows: seq<R>)
    requires |parts| == |rows| && forall i :: 0 <= i < |rows| ==> parse(parts[i]) == Some(rows[i])
    ensures Collect(parts, parse) == Some(rows)
  {
    if rows != [] {
      var ps, rs := parts[1..], rows[1..];
      forall i | 0 <= i < |rs| ensures parse(ps[i]) == Some(rs[i]) {
        assert ps[i] == parts[i + 1] && rs[i] == rows[i + 1];
      }
      CollectAll(ps, parse, rs);
      assert rows == [rows[0]] + rs;
    }
  }

  lemma {:induction false} CollectEach<R>(parts: seq<string>, parse: string -> Option<R>, rows: seq<R>)
    requires Collect(parts, parse) == Some(rows)
    ensures |rows| == |parts| && forall i :: 0 <= i < |rows| ==> parse(parts[i]) == Some(rows[i])
  {
    if parts != [] {
      CollectEach(parts[1..], parse, Collect(parts[1..], parse).value);
    }
  }

  /** `parse_frame`: an empty payload is the empty list. */
  function ParseFrame<R>(frame: string, name: string, parse: string -> Option<R>): Result<seq<R>, ProtocolError> {
    match FramePayload(frame, name)
    case Err(e) => Err(e)
    case Ok(payload) =>
      if payload == "" then Ok([])
      else
        match Collect(Split(payload, ';'), parse)
        case None => Err(Malformed)
        case Some(rows) => Ok(rows)
  }

  /** A list whose encoded rows have no `;`, parse back, and end in no line end survives the frame. */
  lemma {:induction false} ListRoundTrip<R>(name: string, texts: seq<string>, rows: seq<R>, parse: string -> Option<R>)
    requires ' ' !in name && |texts| == |rows|
    requires forall i :: 0 <= i < |texts| ==> texts[i] != "" && ';' !in texts[i] && parse(texts[i]) == Some(rows[i])
    requires texts != [] ==> var w := texts[|texts| - 1]; !IsEol(w[|w| - 1])
    ensures ParseFrame(Frame(name, Join(texts, ';')), name, parse) == Ok(rows)
  {
    hide FramePayload, Frame;
    var payload := Join(texts, ';');
    FrameRoundTrip(name, payload);
    TrimsToEnd(payload);
    if texts != [] {
      var last := texts[|texts| - 1];
      assert texts == texts[..|texts| - 1] + [last];
      JoinSnoc(texts[..|texts| - 1], last, ';');
      assert payload[|payload| - 1] == last[|last| - 1];
      SplitOfJoin(texts, ';');
      CollectAll(texts, parse, rows);
    }
  }

  // ------------------------------------------------------------ stats rows

  datatype StatsRow = StatsRow(key: string, hits: nat, allow: nat, deny: nat, prompt: nat)

  predicate StatsFits(r: StatsRow) {
    r.hits <= U64_MAX && r.allow <= U64_MAX && r.deny <= U64_MAX && r.prompt <= U64_MAX
  }

  function EncodeStats(r: StatsRow): string {
    Join([Escape(r.key), Show(r.hits), Show(r.allow), Show(r.deny), Show(r.prompt)], '|')
  }

  function ParseStats(row: string): Option<StatsRow> {
    var parts := SplitN(row, 5, '|');
    if |parts| < 5 then None
    else
      var hits, allow := Parse(parts[1], U64_MAX), Parse(parts[2], U64_MAX);
      var deny, prompt := Parse(parts[3], U64_MAX), Parse(parts[4], U64_MAX);
      if hits.None? || allow.None? || deny.None? || prompt.None? then None
      else Some(StatsRow(Unescape(parts[0]), hits.value, allow.value, deny.value, prompt.value))
  }

  lemma DigitsOnly(n: nat)
    ensures Show(n) != "" && '|' !in Show(n) && ';' !in Show(n) && !IsEol(Show(n)[|Show(n)| - 1])
  {
    assert forall i :: 0 <= i < |Show(n)| ==> IsDigit(Show(n)[i]);
  }

  lemma StatsRowRoundTrip(r: StatsRow)
    requires StatsFits(r)
    ensures ParseStats(EncodeStats(r)) == Some(r)
    ensures var w := EncodeStats(r); w != "" && ';' !in w && !IsEol(w[|w| - 1])
  {
    hide Escape, Unescape, Show, Parse, Join, SplitN;
    var last := Show(r.prompt);
    var front := [Escape(r.key), Show(r.hits), Show(r.allow), Show(r.deny)];
    EscapeRoundTrip(r.key);
    DigitsOnly(r.hits);
    DigitsOnly(r.allow);
    DigitsOnly(r.deny);
    DigitsOnly(r.prompt);
    ParseOfShow(r.hits, U64_MAX);
    ParseOfShow(r.allow, U64_MAX);
    ParseOfShow(r.deny, U64_MAX);
    ParseOfShow(r.prompt, U64_MAX);
    assert front + [last] == [Escape(r.key), Show(r.hits), Show(r.allow), Show(r.deny), Show(r.prompt)];
    SplitNOfJoin(front + [last], '|');
    JoinLacks(front + [last], '|', ';');
    JoinSnoc(front, last, '|');
  }

  function EncodedStats(rows: seq<StatsRow>): (texts: seq<string>)
    ensures |texts| == |rows| && forall i :: 0 <= i < |rows| ==> texts[i] == EncodeStats(rows[i])
  {
    seq(|rows|, i requires 0 <= i < |rows| => EncodeStats(rows[i]))
  }

  /** Any list of stats rows survives encoding, joining, framing and parsing. */
  lemma {:induction false} StatsListRoundTrip(name: string, rows: seq<StatsRow>)
    requires ' ' !in name && forall i :: 0 <= i < |rows| ==> StatsFits(rows[i])
    ensures ParseFrame(Frame(name, Join(EncodedStats(rows), ';')), name, ParseStats) == Ok(rows)
  {
    hide EncodeStats, ParseStats, ParseFrame, Join;
    forall i | 0 <= i < |rows|
      ensures var w := EncodedStats(rows)[i];
              w != "" && ';' !in w && !IsEol(w[|w| - 1]) && ParseStats(w) == Some(rows[i])
    {
      StatsRowRoundTrip(rows[i]);
    }
    ListRoundTrip(name, EncodedStats(rows), rows, ParseStats);
  }

  // ------------------------------------------------------------ process rows

  datatype ProcessRow = ProcessRow(
    pid: nat, startTicks: nat, uid: nat, executable: string, cmdline: string, verdict: string, ports: string)

  predicate ProcessFits(r: ProcessRow) {
    r.pid <= U32_MAX && r.startTicks <= U64_MAX && r.uid <= U32_MAX
  }

  function EncodeProcess(r: ProcessRow): string {
    Join([Show(r.pid), Show(r.startTicks), Show(r.uid), r.verdict, r.ports, Escape(r.executable), Escape(r.cmdline)],
         '|')
  }

  function ParseProcess(row: string): Option<ProcessRow> {
    var parts := SplitN(row, 7, '|');
    if |parts| < 7 then None
    else
      var pid, ticks, uid := Parse(parts[0], U32_MAX), Parse(parts[1], U64_MAX), Parse(parts[2], U32_MAX);
      if pid.None? || ticks.None? || uid.None? then None
      else
        Some(ProcessRow(pid.value, ticks.value, uid.value, Unescape(parts[5]), Unescape(parts[6]), parts[3], parts[4]))
  }

  /** The two fields that are written without escaping hold no separator. */
  predicate Separable(r: ProcessRow) {
    '|' !in r.verdict && ';' !in r.verdict && '|' !in r.ports && ';' !in r.ports
  }

  function Trimmed(r: ProcessRow): ProcessRow { r.(cmdline := TrimEol(r.cmdline)) }

  function Front(r: ProcessRow): seq<string> {
    [Show(r.pid), Show(r.startTicks), Show(r.uid), r.verdict, r.ports, Escape(r.executable)]
  }

  lemma ProcessRowRoundTrip(r: ProcessRow)
    requires ProcessFits(r) && Separable(r)
    ensures ParseProcess(EncodeProcess(r)) == Some(r)
    ensures EncodeProcess(r) != "" && ';' !in EncodeProcess(r)
  {
    hide Escape, Unescape, Show, Parse, Join, SplitN;
    var fields := Front(r) + [Escape(r.cmdline)];
    EscapeRoundTrip(r.executable);
    EscapeRoundTrip(r.cmdline);
    DigitsOnly(r.pid);
    DigitsOnly(r.startTicks);
    DigitsOnly(r.uid);
    ParseOfShow(r.pid, U32_MAX);
    ParseOfShow(r.startTicks, U64_MAX);
    ParseOfShow(r.uid, U32_MAX);
    assert fields ==
           [Show(r.pid), Show(r.startTicks), Show(r.uid), r.verdict, r.ports, Escape(r.executable), Escape(r.cmdline)];
    SplitNOfJoin(fields, '|');
    JoinLacks(fields, '|', ';');
    JoinSnoc(Front(r), Escape(r.cmdline), '|');
  }

  lemma {:induction false} ReplaceSnoc(s: string, d: char, c: char, by': string)
    ensures ReplaceChar(s + [d], c, by') == ReplaceChar(s, c, by') + if d == c then by' else [d]
  {
    if s == "" {
      assert s + [d] == [d] && [d][1..] == "";
      assert ReplaceChar([d], c, by') == (if d == c then by' else [d]) + "";
    } else {
      assert (s + [d])[1..] == s[1..] + [d];
      ReplaceSnoc(s[1..], d, c, by');
    }
  }

  /** Escaping leaves line ends at the end of a field alone. */
  lemma EscapeSnoc(s: string, d: char)
    requires IsEol(d)
    ensures Escape(s + [d]) == Escape(s) + [d]
  {
    ReplaceSnoc(s, d, '%', "%25");
    ReplaceSnoc(ReplaceChar(s, '%', "%25"), d, '|', "%7C");
    ReplaceSnoc(ReplaceChar(ReplaceChar(s, '%', "%25"), '|', "%7C"), d, ';', "%3B");
  }

  lemma {:induction false} ReplaceEnd(s: string, c: char, by': string)
    requires s != "" && !IsEol(s[|s| - 1]) && by' != "" && !IsEol(by'[|by'| - 1])
    ensures var w := ReplaceChar(s, c, by'); w != "" && !IsEol(w[|w| - 1])
  {
    var front, d := s[..|s| - 1], s[|s| - 1];
    assert s == front + [d];
    ReplaceSnoc(front, d, c, by');
  }

  lemma EscapeEnd(s: string)
    requires s != "" && !IsEol(s[|s| - 1])
    ensures Escape(s) != "" && !IsEol(Escape(s)[|Escape(s)| - 1])
  {
    var a := ReplaceChar(s, '%', "%25");
    var b := ReplaceChar(a, '|', "%7C");
    ReplaceEnd(s, '%', "%25");
    ReplaceEnd(a, '|', "%7C");
    ReplaceEnd(b, ';', "%3B");
  }

  lemma {:induction false} TrimOfEscape(s: string)
    ensures TrimEol(Escape(s)) == Escape(TrimEol(s))
  {
    if s != "" && IsEol(s[|s| - 1]) {
      var front, d := s[..|s| - 1], s[|s| - 1];
      assert s == front + [d];
      EscapeSnoc(front, d);
      TrimOfEscape(front);
      hide Escape;
      assert (Escape(front) + [d])[..|Escape(front)|] == Escape(front);
    } else if s != "" {
      EscapeEnd(s);
    }
  }

  /** Trimming an encoded row trims its last field, the command line. */
  lemma TrimOfRow(r: ProcessRow)
    ensures TrimEol(EncodeProcess(r)) == EncodeProcess(Trimmed(r))
  {
    hide Escape, Show, Join, TrimEol, JoinFront;
    var front := Front(r);
    assert front + [Escape(r.cmdline)] ==
           [Show(r.pid), Show(r.startTicks), Show(r.uid), r.verdict, r.ports, Escape(r.executable), Escape(r.cmdline)];
    assert front + [Escape(TrimEol(r.cmdline))] ==
           [Show(r.pid), Show(r.startTicks), Show(r.uid), r.verdict, r.ports, Escape(r.executable),
            Escape(TrimEol(r.cmdline))];
    JoinSnoc(front, Escape(r.cmdline), '|');
    JoinSnoc(front, Escape(TrimEol(r.cmdline)), '|');
    TrimSuffix(JoinFront(front, '|'), Escape(r.cmdline));
    TrimOfEscape(r.cmdline);
  }

  function EncodedProcesses(rows: seq<ProcessRow>): (texts: seq<string>)
    ensures |texts| == |rows| && forall i :: 0 <= i < |rows| ==> texts[i] == EncodeProcess(rows[i])
  {
    seq(|rows|, i requires 0 <= i < |rows| => EncodeProcess(rows[i]))
  }

  function ProcessFrame(rows: seq<ProcessRow>): string {
    Frame("processes", Join(EncodedProcesses(rows), ';'))
  }

  function ParseProcesses(frame: string): Result<seq<ProcessRow>, ProtocolError> {
    ParseFrame(frame, "processes", ParseProcess)
  }

  function TrimLast(rows: seq<ProcessRow>): (r: seq<ProcessRow>)
    ensures |r| == |rows|
  {
    if rows == [] then [] else rows[..|rows| - 1] + [Trimmed(rows[|rows| - 1])]
  }

  lemma TrimOfList(rows: seq<ProcessRow>)
    ensures TrimEol(Join(EncodedProcesses(rows), ';')) == Join(EncodedProcesses(TrimLast(rows)), ';')
  {
    hide EncodeProcess, Join, JoinFront;
    if rows == [] {
      assert EncodedProcesses(rows) == [] && EncodedProcesses(TrimLast(rows)) == [];
      EmptyJoin();
    } else {
      var front, r := rows[..|rows| - 1], rows[|rows| - 1];
      var texts := EncodedProcesses(front);
      assert EncodedProcesses(rows) == texts + [EncodeProcess(r)];
      assert EncodedProcesses(TrimLast(rows)) == texts + [EncodeProcess(Trimmed(r))];
      JoinSnoc(texts, EncodeProcess(r), ';');
      JoinSnoc(texts, EncodeProcess(Trimmed(r)), ';');
      TrimOfRow(r);
      if front == [] {
        FrontOfNothing(EncodeProcess(r));
        FrontOfNothing(EncodeProcess(Trimmed(r)));
      } else {
        hide TrimEol;
        TrimSuffix(JoinFront(texts, ';'), EncodeProcess(r));
      }
    }
  }

  lemma EmptyJoin()
    ensures Join([], ';') == "" && TrimEol("") == ""
  {
  }

  lemma FrontOfNothing(s: string)
    ensures JoinFront([], ';') + s == s
  {
  }

  /** Whatever the parser accepts has separable fields. */
  lemma ParsedIsSeparable(frame: string, i: nat)
    requires ParseProcesses(frame).Ok? && i < |ParseProcesses(frame).value|
    ensures Separable(ParseProcesses(frame).value[i])
  {
    hide FramePayload, Unescape, Parse;
    var payload := FramePayload(frame, "processes").value;
    var parts := Split(payload, ';');
    CollectEach(parts, ParseProcess, ParseProcesses(frame).value);
    SplitNParts(parts[i], 7, '|', ';');
  }

  lemma TrimLastSame(rows: seq<ProcessRow>)
    ensures TrimLast(rows) == rows <==> (rows == [] || TrimEol(rows[|rows| - 1].cmdline) == rows[|rows| - 1].cmdline)
  {
    if rows != [] {
      assert rows == rows[..|rows| - 1] + [rows[|rows| - 1]];
      assert TrimLast(rows)[|rows| - 1] == Trimmed(rows[|rows| - 1]);
    }
  }

  /** The last command line does not end in CR or LF. */
  predicate EndsClean(rows: seq<ProcessRow>) {
    rows == [] || var w := rows[|rows| - 1].cmdline; w == "" || !IsEol(w[|w| - 1])
  }

  /** With separable fields, a process list comes back with only its very last command line trimmed. */
  lemma {:induction false} ProcessListTrims(rows: seq<ProcessRow>)
    requires forall i :: 0 <= i < |rows| ==> ProcessFits(rows[i]) && Separable(rows[i])
    ensures ParseProcesses(ProcessFrame(rows)) == Ok(TrimLast(rows))
  {
    var trimmed := TrimLast(rows);
    var payload, texts := Join(EncodedProcesses(rows), ';'), EncodedProcesses(trimmed);
    TrimOfList(rows);
    hide EncodeProcess, ParseProcess, Join, TrimEol, Split, Collect, FramePayload, Frame;
    FrameRoundTrip("processes", payload);
    forall i | 0 <= i < |trimmed|
      ensures texts[i] != "" && ';' !in texts[i] && ParseProcess(texts[i]) == Some(trimmed[i])
    {
      ProcessRowRoundTrip(trimmed[i]);
    }
    if rows == [] {
      EmptyJoin();
      assert texts == [];
    } else {
      NonEmptyJoin(texts);
      SplitOfJoin(texts, ';');
      CollectAll(texts, ParseProcess, trimmed);
    }
  }

  lemma NonEmptyJoin(texts: seq<string>)
    requires texts != [] && texts[0] != ""
    ensures Join(texts, ';') != ""
  {
  }

  /**
   A process list survives encode, join, frame and parse if and only if the unescaped fields of every row hold
   no separator and the last command line does not end in CR or LF.
   */
  lemma {:induction false} ProcessListRoundTrip(rows: seq<ProcessRow>)
    requires forall i :: 0 <= i < |rows| ==> ProcessFits(rows[i])
    ensures ParseProcesses(ProcessFrame(rows)) == Ok(rows) <==>
            EndsClean(rows) && forall i :: 0 <= i < |rows| ==> Separable(rows[i])
  {
    hide ParseProcesses, ProcessFrame, Separable, ProcessFits, TrimLast;
    if rows != [] {
      TrimsToEnd(rows[|rows| - 1].cmdline);
    }
    TrimLastSame(rows);
    if ParseProcesses(ProcessFrame(rows)) == Ok(rows) {
      forall i | 0 <= i < |rows| ensures Separable(rows[i]) {
        ParsedIsSeparable(ProcessFrame(rows), i);
      }
    }
    if forall i :: 0 <= i < |rows| ==> Separable(rows[i]) {
      ProcessListTrims(rows);
    }
  }

  lemma OneRow(r: ProcessRow)
    ensures TrimLast([r]) == [Trimmed(r)]
  {
    hide TrimEol;
  }

  /** A row whose command line is a line feed comes back without it. */
  lemma TrailingFeedIsCut(r: ProcessRow)
    requires ProcessFits(r) && Separable(r) && r.cmdline == "\n"
    ensures ParseProcesses(ProcessFrame([r])) == Ok([r.(cmdline := "")])
  {
    hide ParseProcesses, ProcessFrame, TrimLast, Separable;
    assert TrimEol("\n") == "" by { assert "\n"[..0] == ""; }
    OneRow(r);
    ProcessListTrims([r]);
  }

  lemma FeedRow()
    ensures var r := ProcessRow(1, 1, 1, "/a", "\n", "allow", ""); ProcessFits(r) && Separable(r)
  {
  }

  lemma SeparatorRow()
    ensures var r := ProcessRow(1, 1, 1, "/a", "", "allow", "|"); ProcessFits(r) && !Separable(r)
  {
  }

  /** One process whose command line is a line feed, and one whose ports hold a separator: neither list comes back. */
  lemma ProcessListsThatChange()
    ensures var feed := ProcessRow(1, 1, 1, "/a", "\n", "allow", "");
            ParseProcesses(ProcessFrame([feed])) == Ok([feed.(cmdline := "")])
    ensures var split := ProcessRow(1, 1, 1, "/a", "", "allow", "|");
            ParseProcesses(ProcessFrame([split])) != Ok([split])
  {
    hide ParseProcesses, ProcessFrame, Separable, ProcessFits, EndsClean;
    FeedRow();
    TrailingFeedIsCut(ProcessRow(1, 1, 1, "/a", "\n", "allow", ""));
    SeparatorRow();
    var rows := [ProcessRow(1, 1, 1, "/a", "", "allow", "|")];
    assert !Separable(rows[0]);
    ProcessListRoundTrip(rows);
  }

  // ------------------------------------------------------------ on the wire

  /** The three escapes, letter by letter; every other letter stands for itself. */
  lemma EscapeInWords(c: char)
    ensures Escape([c]) == if c == '%' then "%25" else if c == '|' then "%7C" else if c == ';' then "%3B" else [c]
  {
    OneLetter(c, '%', "%25");
    if c == '%' {
      Untouched('%', '2', '5', '|', "%7C");
      Untouched('%', '2', '5', ';', "%3B");
      assert ['%', '2', '5'] == "%25";
    } else {
      OneLetter(c, '|', "%7C");
      if c == '|' {
        Untouched('%', '7', 'C', ';', "%3B");
        assert ['%', '7', 'C'] == "%7C";
      } else {
        OneLetter(c, ';', "%3B");
      }
    }
  }

  lemma OneLetter(c: char, from: char, by': string)
    ensures ReplaceChar([c], from, by') == if c == from then by' else [c]
  {
    assert [c][1..] == "";
    assert ReplaceChar("", from, by') == "";
    assert by' + "" == by' && [c] + "" == [c];
  }

  lemma Untouched(a: char, b: char, c: char, from: char, by': string)
    requires a != from && b != from && c != from
    ensures ReplaceChar([a, b, c], from, by') == [a, b, c]
  {
    OneLetter(c, from, by');
    assert [b, c][1..] == [c] && [a, b, c][1..] == [b, c];
    assert ReplaceChar([b, c], from, by') == [b] + [c];
    assert ReplaceChar([a, b, c], from, by') == [a] + [b, c];
  }

  /** One step of `join`. */
  lemma JoinMore(a: string, rest: seq<string>)
    requires rest != []
    ensures Join([a] + rest, '|') == a + "|" + Join(rest, '|')
  {
    assert ([a] + rest)[1..] == rest;
  }

  /** The order of the fields in a statistics row. */
  lemma StatsRowInWords(key: string, hits: nat, allow: nat, deny: nat, prompt: nat)
    ensures EncodeStats(StatsRow(key, hits, allow, deny, prompt))
            == Escape(key) + "|" + (Show(hits) + "|" + (Show(allow) + "|" + (Show(deny) + "|" + Show(prompt))))
  {
    var h, a, d, p := Show(hits), Show(allow), Show(deny), Show(prompt);
    var k := Escape(key);
    assert EncodeStats(StatsRow(key, hits, allow, deny, prompt)) == Join([k, h, a, d, p], '|');
    assert Join([p], '|') == p;
    hide Escape, Show, Join;
    JoinMore(d, [p]);
    JoinMore(a, [d] + [p]);
    JoinMore(h, [a] + ([d] + [p]));
    JoinMore(k, [h] + ([a] + ([d] + [p])));
    assert [k] + ([h] + ([a] + ([d] + [p]))) == [k, h, a, d, p];
  }

  /** The order of the fields in a process row; only the executable and the command line are escaped. */
  lemma ProcessRowInWords(r: ProcessRow)
    ensures EncodeProcess(r) == Show(r.pid) + "|" + (Show(r.startTicks) + "|" + (Show(r.uid) + "|"
            + (r.verdict + "|" + (r.ports + "|" + (Escape(r.executable) + "|" + Escape(r.cmdline))))))
  {
    var p, t, u, x, c := Show(r.pid), Show(r.startTicks), Show(r.uid), Escape(r.executable), Escape(r.cmdline);
    assert EncodeProcess(r) == Join([p, t, u, r.verdict, r.ports, x, c], '|');
    assert Join([c], '|') == c;
    hide Escape, Show, Join, EncodeProcess;
    JoinMore(x, [c]);
    var tail := [x] + [c];
    JoinMore(r.ports, tail);
    JoinMore(r.verdict, [r.ports] + tail);
    var most := [r.verdict] + ([r.ports] + tail);
    JoinMore(u, most);
    JoinMore(t, [u] + most);
    JoinMore(p, [t] + ([u] + most));
    assert [p] + ([t] + ([u] + most)) == [p, t, u, r.verdict, r.ports, x, c];
  }

  /** The frame around a list. */
  lemma FrameInWords(payload: string)
    ensures ProcessFrame([]) == "v1 processes \n" && Frame("stats-hosts", payload) == "v1 stats-hosts " + payload + "\n"
  {
    assert "v1 " + "stats-hosts" + " " == "v1 stats-hosts ";
    assert "v1 " + "processes" + " " + "" + "\n" == "v1 processes \n";
  }

  // ------------------------------------------------------------ what is refused

  lemma {:induction false} JoinOfSplitN(s: string, n: nat, sep: char)
    requires n > 0
    ensures var parts := SplitN(s, n, sep); 1 <= |parts| <= n && Join(parts, sep) == s
  {
    if n > 1 && sep in s {
      var i := IndexOf(s, sep);
      var rest := SplitN(s[i + 1..], n - 1, sep);
      JoinOfSplitN(s[i + 1..], n - 1, sep);
      assert s == s[..i] + [sep] + s[i + 1..];
      assert SplitN(s, n, sep) == [s[..i]] + rest;
      hide SplitN, IndexOf;
      assert ([s[..i]] + rest)[1..] == rest;
    }
  }

  /** The row is those fields with bars between them, of which only the last may hold a bar. */
  predicate IsRow(fields: seq<string>, row: string) {
    row == Join(fields, '|') && forall i :: 0 <= i < |fields| - 1 ==> '|' !in fields[i]
  }

  lemma RowFields(row: string, n: nat)
    requires n > 0
    ensures |SplitN(row, n, '|')| == n ==> IsRow(SplitN(row, n, '|'), row)
    ensures forall fields :: |fields| == n && IsRow(fields, row) ==> SplitN(row, n, '|') == fields
    ensures |SplitN(row, n, '|')| <= n
  {
    JoinOfSplitN(row, n, '|');
    SplitNParts(row, n, '|', '|');
    hide SplitN;
    forall fields | |fields| == n && IsRow(fields, row) ensures SplitN(row, n, '|') == fields {
      SplitNOfJoin(fields, '|');
    }
  }

  predicate IsStatsRow(f: seq<string>, row: string, r: StatsRow) {
    && |f| == 5 && IsRow(f, row) && Unescape(f[0]) == r.key
    && Parse(f[1], U64_MAX) == Some(r.hits) && Parse(f[2], U64_MAX) == Some(r.allow)
    && Parse(f[3], U64_MAX) == Some(r.deny) && Parse(f[4], U64_MAX) == Some(r.prompt)
  }

  /** Exactly which texts are statistics rows, and of what. */
  lemma StatsAccepted(row: string, r: StatsRow)
    ensures ParseStats(row) == Some(r) <==> exists f :: IsStatsRow(f, row, r)
  {
    RowFields(row, 5);
    hide SplitN, IsRow, Parse, Unescape;
    if ParseStats(row) == Some(r) {
      assert IsStatsRow(SplitN(row, 5, '|'), row, r);
    }
  }

  predicate IsProcessRow(f: seq<string>, row: string, r: ProcessRow) {
    && |f| == 7 && IsRow(f, row)
    && Parse(f[0], U32_MAX) == Some(r.pid) && Parse(f[1], U64_MAX) == Some(r.startTicks)
    && Parse(f[2], U32_MAX) == Some(r.uid) && f[3] == r.verdict && f[4] == r.ports
    && Unescape(f[5]) == r.executable && Unescape(f[6]) == r.cmdline
  }

  /** Exactly which texts are process rows, and of what. */
  lemma ProcessAccepted(row: string, r: ProcessRow)
    ensures ParseProcess(row) == Some(r) <==> exists f :: IsProcessRow(f, row, r)
  {
    RowFields(row, 7);
    hide SplitN, IsRow, Parse, Unescape;
    if ParseProcess(row) == Some(r) {
      assert IsProcessRow(SplitN(row, 7, '|'), row, r);
    }
  }

  /**
   Exactly which frames carry a payload under a name: version 1 and that very name. Another version word is unsupported
   if it begins with a `v`; everything else is malformed.
   */
  lemma FrameAccepted(frame: string, name: string)
    requires ' ' !in name
    ensures var line, r := TrimEol(frame), FramePayload(frame, name);
            && (line == "v1 " + name ==> r == Ok(""))
            && (forall payload :: line == Lead(name) + payload ==> r == Ok(payload))
            && (r.Ok? ==> line == "v1 " + name || line == Lead(name) + r.value)
            && (r == Err(UnsupportedVersion) <==> line != "" && line[0] == 'v' && line != "v1" && !("v1 " <= line))
  {
    var line := TrimEol(frame);
    FirstWord(line);
    SplitNParts(line, 3, ' ', ' ');
    JoinOfSplitN(line, 3, ' ');
    PlainLine(name);
    hide SplitN, TrimEol, Lead;
    forall payload | line == Lead(name) + payload ensures FramePayload(frame, name) == Ok(payload) {
      FieldsOfLine(name, payload);
    }
    if FramePayload(frame, name).Ok? {
      JoinedWords(SplitN(line, 3, ' '));
      LeadWords(name);
    }
  }

  lemma PlainLine(name: string)
    requires ' ' !in name
    ensures SplitN("v1 " + name, 3, ' ') == ["v1", name]
  {
    SplitNFirst("v1", name, 3, ' ');
    assert "v1" + [' '] + name == "v1 " + name;
    assert SplitN(name, 2, ' ') == [name];
  }

  lemma LeadWords(name: string)
    ensures "v1" + " " + name == "v1 " + name && Lead(name) == "v1" + " " + name + " "
  {
  }

  /** The first word of a line. */
  lemma FirstWord(line: string)
    ensures var word := SplitN(line, 3, ' ')[0];
            && (word == "v1" <==> line == "v1" || "v1 " <= line)
            && (word != "" && word[0] == 'v' <==> line != "" && line[0] == 'v')
  {
    if ' ' in line {
      var i := IndexOf(line, ' ');
      assert SplitN(line, 3, ' ')[0] == line[..i];
      if "v1 " <= line {
        assert line[2] == "v1 "[2] && line[0] == "v1 "[0] && line[1] == "v1 "[1];
        assert i == 2;
      }
    } else {
      assert "v1 "[2] == ' ';
      assert SplitN(line, 3, ' ') == [line];
    }
  }

  lemma JoinedWords(f: seq<string>)
    ensures |f| == 2 ==> Join(f, ' ') == f[0] + " " + f[1]
    ensures |f| == 3 ==> Join(f, ' ') == f[0] + " " + f[1] + " " + f[2]
  {
    if |f| == 3 {
      assert f[1..][1..] == [f[2]];
      assert Join(f[1..], ' ') == f[1] + " " + f[2];
    }
  }

  /** A list with a part that is no row is malformed as a whole. */
  lemma BadRowRefused<R>(frame: string, name: string, parse: string -> Option<R>, i: nat)
    requires FramePayload(frame, name).Ok? && FramePayload(frame, name).value != ""
    requires var parts := Split(FramePayload(frame, name).value, ';'); i < |parts| && parse(parts[i]).None?
    ensures ParseFrame(frame, name, parse) == Err(Malformed)
  {
    hide FramePayload, Split;
    var parts := Split(FramePayload(frame, name).value, ';');
    if Collect(parts, parse).Some? {
      CollectEach(parts, parse, Collect(parts, parse).value);
    }
  }
}
