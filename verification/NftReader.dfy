/**
 Reading a table script back, statement by statement, as `nft -f` takes it. The reader spells the statements
 out on its own, so that what is printed is pinned by what it is read as.
 */
module NftReader {
  import opened Wrappers
  import opened Text
  import opened Nft
  import opened NftText

  /** The statements of a script: its lines without their indentation. */
  function Lines(s: string): seq<string> {
    if s == "" then []
    else if '\n' !in s then [TrimStart(s)]
    else
      var i := IndexOf(s, '\n');
      [TrimStart(s[..i])] + Lines(s[i + 1..])
  }

  // ------------------------------------------------------------ the statements

  function LoopbackLine(hook: Hook): string {
    if hook.Output? then "oifname \"lo\" accept" else "iifname \"lo\" accept"
  }

  function EstablishedLine(): string { "ct state established,related accept" }
  function DropLine(): string { "meta l4proto tcp ct state new drop" }
  function QueueLine(): string { "meta l4proto tcp ct state new queue num 4242" }
  function OwnerLead(): string { "meta skuid " }
  function TableLine(): string { "table inet interfire {" }
  function ChainLine(hook: Hook): string { if hook.Output? then "chain output {" else "chain input {" }

  function HookWords(hook: Hook): string {
    if hook.Output? then "type filter hook output" else "type filter hook input"
  }

  function PolicyWords(): string { " priority filter; policy accept;" }

  function HookLine(hook: Hook): string {
    HookWords(hook) + PolicyWords()
  }

  function EndLine(): string { "}" }

  /** A drop for one socket owner: the uid in decimal, then the plain drop statement. */
  function ReadOwnerDrop(line: string): Option<NftRule> {
    var lead := OwnerLead();
    if |line| < |lead| || line[..|lead|] != lead || ' ' !in line[|lead|..] then None
    else
      var s := line[|lead|..];
      var i := IndexOf(s, ' ');
      if i > 0 && AllDigits(s[..i]) && s[i + 1..] == DropLine() then Some(DropNewFrom(Value(s[..i]))) else None
  }

  function ReadRule(hook: Hook, line: string): Option<NftRule> {
    if line == LoopbackLine(hook) then Some(AcceptLoopback)
    else if line == EstablishedLine() then Some(AcceptEstablished)
    else if line == DropLine() then Some(DropNew)
    else if line == QueueLine() then Some(QueueNew)
    else ReadOwnerDrop(line)
  }

  datatype Read<T> = Read(value: T, rest: seq<string>) | Refused

  /** The rules up to the brace that closes their chain. */
  function ReadRules(hook: Hook, lines: seq<string>): Read<seq<NftRule>> {
    if lines == [] then Refused
    else if lines[0] == EndLine() then Read([], lines[1..])
    else
      var first := ReadRule(hook, lines[0]);
      var others := ReadRules(hook, lines[1..]);
      if first.None? || others.Refused? then Refused else Read([first.value] + others.value, others.rest)
  }

  /** A chain that is there is attached to its own hook. */
  function ReadChain(hook: Hook, lines: seq<string>): Read<Option<seq<NftRule>>> {
    if lines == [] || lines[0] != ChainLine(hook) then Read(None, lines)
    else if |lines| == 1 || lines[1] != HookLine(hook) then Refused
    else
      var rules := ReadRules(hook, lines[2..]);
      if rules.Refused? then Refused else Read(Some(rules.value), rules.rest)
  }

  function ReadTable(lines: seq<string>): Option<Table> {
    if lines == [] then Some(ABSENT)
    else if lines[0] != TableLine() then None
    else
      var output := ReadChain(Output, lines[1..]);
      if output.Refused? then None
      else
        var input := ReadChain(Input, output.rest);
        if input.Refused? || input.rest != [EndLine()] then None else Some(Table(output.value, input.value))
  }

  // ------------------------------------------------------------ lines of printed text

  lemma LinesFirst(line: string, rest: string)
    requires '\n' !in line
    ensures Lines(line + "\n" + rest) == [TrimStart(line)] + Lines(rest)
  {
    var s := line + ['\n'] + rest;
    assert s == line + "\n" + rest;
    assert s[|line|] == '\n';
    IndexAfter(line, '\n', rest);
    assert s[..|line|] == line && s[|line| + 1..] == rest;
  }

  lemma {:induction false} TrimIndent(indent: string, s: string)
    requires (forall i :: 0 <= i < |indent| ==> indent[i] == ' ') && s != "" && !IsSpace(s[0])
    ensures TrimStart(indent + s) == s
  {
    if indent == "" {
      assert indent + s == s;
    } else {
      assert (indent + s)[1..] == indent[1..] + s;
      TrimIndent(indent[1..], s);
    }
  }

  predicate Statement(s: string) {
    s != "" && !IsSpace(s[0]) && '\n' !in s
  }

  /** One printed line is one statement, however far it is indented. */
  lemma {:induction false} LineRead(indent: string, s: string, rest: string)
    requires (forall i :: 0 <= i < |indent| ==> indent[i] == ' ') && Statement(s)
    ensures Lines(indent + s + "\n" + rest) == [s] + Lines(rest)
  {
    TrimIndent(indent, s);
    LinesFirst(indent + s, rest);
  }

  // ------------------------------------------------------------ one rule

  /** The statement a rule should print. */
  function RuleLine(hook: Hook, r: NftRule): string {
    match r
    case AcceptLoopback => LoopbackLine(hook)
    case AcceptEstablished => EstablishedLine()
    case DropNew => DropLine()
    case DropNewFrom(uid) => OwnerLead() + Show(uid) + " " + DropLine()
    case QueueNew => QueueLine()
  }

  function Indent(r: NftRule): string { if r.AcceptEstablished? then "" else "    " }

  lemma DropPrinted()
    ensures NewTcpText() + DropPhrase() == DropLine()
  {
  }

  lemma QueuePrinted()
    ensures NewTcpText() + "new " + QueuePhrase() == QueueLine()
  {
  }

  lemma LoopbackPrinted(hook: Hook)
    ensures RuleText(hook, AcceptLoopback) == "    " + LoopbackLine(hook) + "\n"
  {
  }

  lemma EstablishedPrinted(hook: Hook)
    ensures RuleText(hook, AcceptEstablished) == "" + EstablishedLine() + "\n"
  {
  }

  lemma DropRulePrinted(hook: Hook)
    ensures RuleText(hook, DropNew) == "    " + DropLine() + "\n"
  {
    DropPrinted();
    hide NewTcpText, DropPhrase, DropLine;
    assert "    " + NewTcpText() + DropPhrase() == "    " + (NewTcpText() + DropPhrase());
  }

  lemma OwnerRulePrinted(hook: Hook, uid: nat)
    ensures RuleText(hook, DropNewFrom(uid)) == "    " + (OwnerLead() + Show(uid) + " " + DropLine()) + "\n"
  {
    DropPrinted();
    assert "    meta skuid " == "    " + OwnerLead();
    hide NewTcpText, DropPhrase, DropLine, Show, OwnerLead;
    Regrouped("    ", OwnerLead(), Show(uid), " ", NewTcpText(), DropPhrase());
  }

  lemma Regrouped(a: string, b: string, c: string, d: string, e: string, f: string)
    ensures a + b + c + d + e + f == a + (b + c + d + (e + f))
  {
    assert a + b + c + d + e + f == a + b + c + d + (e + f);
    assert b + c + d + (e + f) == b + (c + d + (e + f));
  }

  lemma QueueRulePrinted(hook: Hook)
    ensures RuleText(hook, QueueNew) == "    " + QueueLine() + "\n"
  {
    QueuePrinted();
    hide NewTcpText, QueuePhrase, QueueLine;
    assert "    " + NewTcpText() + "new " + QueuePhrase() == "    " + (NewTcpText() + "new " + QueuePhrase());
  }

  lemma RulePrinted(hook: Hook, r: NftRule)
    ensures RuleText(hook, r) == Indent(r) + RuleLine(hook, r) + "\n"
  {
    hide RuleText, LoopbackLine, EstablishedLine, DropLine, QueueLine, OwnerLead, Show;
    match r
    case AcceptLoopback => LoopbackPrinted(hook);
    case AcceptEstablished => EstablishedPrinted(hook);
    case DropNew => DropRulePrinted(hook);
    case DropNewFrom(uid) => OwnerRulePrinted(hook, uid);
    case QueueNew => QueueRulePrinted(hook);
  }

  lemma FixedStatements(hook: Hook)
    ensures Statement(LoopbackLine(hook)) && Statement(EstablishedLine())
  {
    LoopbackStatement(hook);
    EstablishedStatement();
    hide LoopbackLine, EstablishedLine, Statement;
  }

  lemma LoopbackStatement(hook: Hook)
    ensures Statement(LoopbackLine(hook))
  {
  }

  lemma EstablishedStatement()
    ensures Statement(EstablishedLine())
  {
  }

  lemma DropStatement()
    ensures Statement(DropLine())
  {
  }

  lemma QueueStatement()
    ensures Statement(QueueLine())
  {
  }

  lemma FrameStatements(hook: Hook)
    ensures Statement(TableLine()) && Statement(ChainLine(hook)) && Statement(EndLine())
  {
  }

  lemma HookStatement(hook: Hook)
    ensures Statement(HookLine(hook))
  {
    HookNoBreak(hook);
    PolicyNoBreak();
    hide HookWords, PolicyWords;
  }

  lemma HookNoBreak(hook: Hook)
    ensures Statement(HookWords(hook))
  {
  }

  lemma PolicyNoBreak()
    ensures '\n' !in PolicyWords()
  {
  }

  lemma RuleStatement(hook: Hook, r: NftRule)
    ensures Statement(RuleLine(hook, r))
  {
    FixedStatements(hook);
    DropStatement();
    QueueStatement();
    hide LoopbackLine, EstablishedLine, DropLine, QueueLine;
    if r.DropNewFrom? {
      assert AllDigits(Show(r.uid));
    }
  }

  lemma RuleRead(hook: Hook, r: NftRule)
    ensures ReadRule(hook, RuleLine(hook, r)) == Some(r) && RuleLine(hook, r) != EndLine()
  {
    Distinct(hook);
    assert |EndLine()| == 1;
    hide LoopbackLine, EstablishedLine, DropLine, QueueLine, ReadOwnerDrop;
    if r.DropNewFrom? {
      OwnerRead(r.uid);
      OwnerDistinct(hook, r.uid);
    }
  }

  /** The fixed statements differ from each other at a fixed place. */
  lemma Distinct(hook: Hook)
    ensures |LoopbackLine(hook)| > 1 && |EstablishedLine()| > 1 && |DropLine()| > 5 && |QueueLine()| > 5
    ensures LoopbackLine(hook)[1] == 'i' && EstablishedLine()[1] == 't' && DropLine()[5] == 'l' && QueueLine()[5] == 'l'
    ensures DropLine()[1] == 'e' && QueueLine()[1] == 'e' && |DropLine()| < |QueueLine()|
  {
  }

  lemma OwnerLeadIs()
    ensures |OwnerLead()| == 11 && OwnerLead()[1] == 'e' && OwnerLead()[5] == 's'
  {
  }

  lemma OwnerDistinct(hook: Hook, uid: nat)
    ensures var line := OwnerLead() + Show(uid) + " " + DropLine();
            && line != LoopbackLine(hook) && line != EstablishedLine()
            && line != DropLine() && line != QueueLine() && |line| > 1
  {
    Distinct(hook);
    OwnerLeadIs();
    hide LoopbackLine, EstablishedLine, DropLine, QueueLine, OwnerLead, Show;
    var line := OwnerLead() + Show(uid) + " " + DropLine();
    assert line[1] == 'e' && line[5] == 's';
  }

  lemma OwnerRead(uid: nat)
    ensures ReadOwnerDrop(OwnerLead() + Show(uid) + " " + DropLine()) == Some(DropNewFrom(uid))
  {
    hide OwnerLead, DropLine;
    var digits := Show(uid);
    var line := OwnerLead() + digits + " " + DropLine();
    var s := digits + [' '] + DropLine();
    assert line[..|OwnerLead()|] == OwnerLead();
    assert line[|OwnerLead()|..] == s;
    assert AllDigits(digits);
    IndexAfter(digits, ' ', DropLine());
    assert s[|digits|] == ' ';
    assert s[..|digits|] == digits && s[|digits| + 1..] == DropLine();
    ValueOfShow(uid);
  }

  // ------------------------------------------------------------ a chain and the table

  function RuleLines(hook: Hook, rules: seq<NftRule>): seq<string> {
    if rules == [] then [] else [RuleLine(hook, rules[0])] + RuleLines(hook, rules[1..])
  }

  lemma {:induction false} RulesPrinted(hook: Hook, rules: seq<NftRule>, rest: string)
    ensures Lines(RulesText(hook, rules) + rest) == RuleLines(hook, rules) + Lines(rest)
  {
    hide RuleText, RuleLine, Lines, Statement;
    if rules == [] {
      assert "" + rest == rest;
    } else {
      var r := rules[0];
      var tail := RulesText(hook, rules[1..]) + rest;
      RulePrinted(hook, r);
      RuleStatement(hook, r);
      LineRead(Indent(r), RuleLine(hook, r), tail);
      RulesPrinted(hook, rules[1..], rest);
      assert RuleText(hook, r) + RulesText(hook, rules[1..]) + rest == RuleText(hook, r) + tail;
    }
  }

  lemma {:induction false} RulesRead(hook: Hook, rules: seq<NftRule>, rest: seq<string>)
    ensures ReadRules(hook, RuleLines(hook, rules) + [EndLine()] + rest) == Read(rules, rest)
  {
    hide RuleLine, ReadRule, EndLine;
    var lines := RuleLines(hook, rules) + [EndLine()] + rest;
    if rules == [] {
      assert lines[1..] == rest;
    } else {
      RuleRead(hook, rules[0]);
      RulesRead(hook, rules[1..], rest);
      assert lines[1..] == RuleLines(hook, rules[1..]) + [EndLine()] + rest;
      assert [rules[0]] + rules[1..] == rules;
    }
  }

  function ChainLines(hook: Hook, chain: Option<seq<NftRule>>): seq<string> {
    if chain.None? then []
    else [ChainLine(hook), HookLine(hook)] + RuleLines(hook, chain.value) + [EndLine()]
  }

  lemma ChainOpens(hook: Hook)
    ensures "  chain " + HookName(hook) + " {\n" == "  " + ChainLine(hook) + "\n"
  {
  }

  lemma HookPrinted(hook: Hook)
    ensures HookText(hook) + PolicyText() == HookLine(hook) + "\n"
  {
    HookWordsPrinted(hook);
    PolicyPrinted();
    hide HookText, PolicyText, HookWords, PolicyWords;
    assert HookWords(hook) + (PolicyWords() + "\n") == HookLine(hook) + "\n";
  }

  lemma HookWordsPrinted(hook: Hook)
    ensures HookText(hook) == HookWords(hook)
  {
  }

  lemma PolicyPrinted()
    ensures PolicyText() == PolicyWords() + "\n"
  {
  }

  lemma HeaderPrinted(hook: Hook, rest: string)
    ensures Lines(Header(hook) + rest) == [ChainLine(hook), HookLine(hook)] + Lines(rest)
  {
    ChainOpens(hook);
    HookPrinted(hook);
    FrameStatements(hook);
    HookStatement(hook);
    hide HookName, ChainLine, HookText, PolicyText, HookLine, Lines, Statement, TableLine;
    var second := HookText(hook) + PolicyText();
    LineRead("  ", ChainLine(hook), second + rest);
    LineRead("", HookLine(hook), rest);
    assert Header(hook) + rest == "  " + ChainLine(hook) + "\n" + (second + rest);
    assert "" + HookLine(hook) + "\n" == second;
  }

  lemma ChainPrinted(hook: Hook, chain: Option<seq<NftRule>>, rest: string)
    ensures Lines(ChainText(hook, chain) + rest) == ChainLines(hook, chain) + Lines(rest)
  {
    FrameStatements(hook);
    hide Header, RulesText, RuleLines, ChainLine, HookLine, Lines, Statement, TableLine;
    if chain.None? {
      assert "" + rest == rest;
    } else {
      var rules, close := RulesText(hook, chain.value), "  }\n" + rest;
      assert ChainText(hook, chain) + rest == Header(hook) + (rules + close);
      HeaderPrinted(hook, rules + close);
      RulesPrinted(hook, chain.value, close);
      assert close == "  " + EndLine() + "\n" + rest;
      LineRead("  ", EndLine(), rest);
    }
  }

  lemma ChainRead(hook: Hook, chain: Option<seq<NftRule>>, rest: seq<string>)
    requires chain.None? ==> rest == [] || rest[0] != ChainLine(hook)
    ensures ReadChain(hook, ChainLines(hook, chain) + rest) == Read(chain, rest)
  {
    hide ChainLine, HookLine, EndLine, ReadRules, RuleLines;
    var lines := ChainLines(hook, chain) + rest;
    if chain.None? {
      assert lines == rest;
    } else {
      assert lines[2..] == RuleLines(hook, chain.value) + [EndLine()] + rest;
      RulesRead(hook, chain.value, rest);
    }
  }

  function TableLines(t: Table): seq<string> {
    if t == ABSENT then []
    else [TableLine()] + ChainLines(Output, t.output) + ChainLines(Input, t.input) + [EndLine()]
  }

  lemma TableOpens()
    ensures TablePhrase() + " {\n" == "" + TableLine() + "\n"
  {
  }

  lemma TablePrinted(t: Table)
    ensures Lines(Render(t)) == TableLines(t)
  {
    TableOpens();
    FrameStatements(Output);
    EmptyLines();
    hide TablePhrase, TableLine, ChainText, ChainLines, Lines, Statement, ChainLine;
    if t != ABSENT {
      var o, i := ChainText(Output, t.output), ChainText(Input, t.input);
      assert Render(t) == TablePhrase() + " {\n" + (o + (i + "}\n"));
      LineRead("", TableLine(), o + (i + "}\n"));
      ChainPrinted(Output, t.output, i + "}\n");
      ChainPrinted(Input, t.input, "}\n");
      LineRead("", EndLine(), "");
      assert "" + EndLine() + "\n" + "" == "}\n";
    }
  }

  lemma EmptyLines()
    ensures Lines("") == []
  {
  }

  lemma ChainsDiffer()
    ensures ChainLine(Output) != ChainLine(Input) && EndLine() != ChainLine(Output) && EndLine() != ChainLine(Input)
  {
    assert ChainLine(Output)[6] == 'o' && ChainLine(Input)[6] == 'i';
  }

  /** What follows the output chain does not look like one. */
  lemma InputOpens(chain: Option<seq<NftRule>>)
    ensures (ChainLines(Input, chain) + [EndLine()])[0] != ChainLine(Output)
  {
    ChainsDiffer();
    hide ChainLine, EndLine, HookLine, RuleLines;
  }

  lemma TableShape(t: Table)
    requires t != ABSENT
    ensures var lines := TableLines(t);
            && lines != [] && lines[0] == TableLine()
            && lines[1..] == ChainLines(Output, t.output) + (ChainLines(Input, t.input) + [EndLine()])
  {
    hide ChainLines, TableLine, EndLine;
  }

  lemma TableRead(t: Table)
    ensures ReadTable(TableLines(t)) == Some(t)
  {
    if t != ABSENT {
      var close := [EndLine()];
      var tail := ChainLines(Input, t.input) + close;
      TableShape(t);
      InputOpens(t.input);
      ChainsDiffer();
      hide ChainLines, ReadChain, ChainLine, TableLine, TableLines, EndLine;
      ChainRead(Input, t.input, close);
      ChainRead(Output, t.output, tail);
    }
  }

  /** A printed table is read back exactly, rule for rule and chain for chain. */
  lemma PrintedIsRead(t: Table)
    ensures ReadTable(Lines(Render(t))) == Some(t)
  {
    TablePrinted(t);
    TableRead(t);
  }

  // ------------------------------------------------------------ the fixed script

  function Concat(lines: seq<string>): string {
    if lines == [] then "" else lines[0] + "\n" + Concat(lines[1..])
  }

  lemma {:induction false} ConcatRead(lines: seq<string>)
    requires forall l :: l in lines ==> Statement(l)
    ensures Lines(Concat(lines)) == lines
  {
    hide Lines, Statement;
    if lines == [] {
      EmptyLines();
    } else {
      ConcatRead(lines[1..]);
      LineRead("", lines[0], Concat(lines[1..]));
      assert "" + lines[0] + "\n" == lines[0] + "\n";
    }
  }

  lemma OwnedHeadPrinted()
    ensures TablePhrase() + OwnedHead() == TableLine() + "\n" + (ChainLine(Output) + "\n") + (HookLine(Output) + "\n")
  {
    TableOpens();
    HookPrinted(Output);
    OwnedChainOpens();
    OwnedHeadIs();
    hide TablePhrase, TableLine, HookText, PolicyText, HookLine, ChainLine, OwnedHead;
    assert TablePhrase() + OwnedHead() ==
           TablePhrase() + " {\n" + "chain output {\n" + (HookText(Output) + PolicyText());
  }

  lemma OwnedChainOpens()
    ensures "chain output {\n" == ChainLine(Output) + "\n"
  {
  }

  lemma OwnedHeadIs()
    ensures OwnedHead() == " {\n" + "chain output {\n" + (HookText(Output) + PolicyText())
  {
    hide HookText, PolicyText;
    assert " {\nchain output {\n" == " {\n" + "chain output {\n";
  }

  lemma OwnedLoopback()
    ensures LoopbackOut() + " accept\n" == LoopbackLine(Output) + "\n"
  {
  }

  function OwnedLines(): seq<string> {
    [TableLine(), ChainLine(Output), HookLine(Output), LoopbackLine(Output), QueueLine(), EndLine(), EndLine()]
  }

  lemma ConcatMore(a: string, lines: seq<string>)
    ensures Concat([a] + lines) == a + "\n" + Concat(lines)
  {
    assert ([a] + lines)[1..] == lines;
  }

  lemma ConcatThree(a: string, b: string, c: string, lines: seq<string>)
    ensures Concat([a, b, c] + lines) == a + "\n" + (b + "\n") + (c + "\n") + Concat(lines)
  {
    ConcatMore(c, lines);
    ConcatMore(b, [c] + lines);
    ConcatMore(a, [b] + ([c] + lines));
    hide Concat;
    assert [a, b, c] + lines == [a] + ([b] + ([c] + lines));
  }

  lemma ConcatNone()
    ensures Concat([]) == ""
  {
  }

  lemma OwnedLinesText()
    ensures Concat(OwnedLines()) ==
            TableLine() + "\n" + (ChainLine(Output) + "\n") + (HookLine(Output) + "\n") +
            (LoopbackLine(Output) + "\n" + (QueueLine() + "\n") + (EndLine() + "\n") + (EndLine() + "\n" + ""))
  {
    hide Concat, TableLine, ChainLine, HookLine, LoopbackLine, QueueLine, EndLine;
    var body := [LoopbackLine(Output), QueueLine(), EndLine()] + [EndLine()];
    ConcatThree(TableLine(), ChainLine(Output), HookLine(Output), body);
    ConcatThree(LoopbackLine(Output), QueueLine(), EndLine(), [EndLine()]);
    ConcatMore(EndLine(), []);
    ConcatNone();
    assert OwnedLines() == [TableLine(), ChainLine(Output), HookLine(Output)] + body;
    assert [EndLine()] + [] == [EndLine()];
  }

  lemma OwnedScriptText(
    head: string, loop: string, accept: string, tcp: string, state: string, queue: string, end: string)
    ensures head + loop + accept + tcp + state + queue + ("\n" + (end + end)) ==
            head + (loop + accept + (tcp + state + queue + "\n") + end + (end + ""))
  {
    var rule := tcp + state + queue;
    assert head + loop + accept + tcp + state + queue == head + (loop + accept + rule);
    assert end + "" == end;
    assert loop + accept + (rule + "\n") + end + end == loop + accept + rule + ("\n" + (end + end));
  }

  lemma OwnedPrinted()
    ensures OwnedScript() == Concat(OwnedLines())
  {
    OwnedHeadPrinted();
    OwnedLoopback();
    QueuePrinted();
    OwnedLinesText();
    assert EndLine() + "\n" == "}\n";
    assert "\n}\n}\n" == "\n" + ("}\n" + "}\n");
    hide Concat, OwnedLines, TablePhrase, OwnedHead, LoopbackOut, NewTcpText, QueuePhrase;
    hide TableLine, ChainLine, HookLine, LoopbackLine, QueueLine, EndLine;
    OwnedScriptText(TablePhrase() + OwnedHead(), LoopbackOut(), " accept\n", NewTcpText(), "new ", QueuePhrase(),
                    "}\n");
  }

  lemma OwnedStatements()
    ensures forall l :: l in OwnedLines() ==> Statement(l)
  {
    FrameStatements(Output);
    HookStatement(Output);
    FixedStatements(Output);
    QueueStatement();
    hide TableLine, ChainLine, HookLine, LoopbackLine, QueueLine, EndLine, EstablishedLine, Statement;
  }

  lemma OwnedTableLines()
    ensures TableLines(OWNED) == OwnedLines()
  {
    hide TableLine, ChainLine, HookLine, LoopbackLine, QueueLine, EndLine;
    var rules := [AcceptLoopback, QueueNew];
    assert rules[1..] == [QueueNew] && [QueueNew][1..] == [];
  }

  /** `owned_table_script` is laid out differently, but it is read as the owned table. */
  lemma OwnedIsRead()
    ensures ReadTable(Lines(OwnedScript())) == Some(OWNED)
  {
    hide OwnedScript, Concat, OwnedLines, Lines, ReadTable, TableLines;
    OwnedPrinted();
    OwnedStatements();
    ConcatRead(OwnedLines());
    OwnedTableLines();
    TableRead(OWNED);
  }

  /** The script that is loaded does what the policy says, packet by packet. */
  lemma ScriptMeaning(machine: Preference, users: Users, active: bool, bound: bool, p: Packet)
    ensures var read := ReadTable(Lines(Render(Composed(machine, users, active, bound))));
            read.Some? && Eval(read.value, p) == Intended(machine, users, active, bound, p)
  {
    PrintedIsRead(Composed(machine, users, active, bound));
    ComposedIsIntended(machine, users, active, bound, p);
  }
}
