/** The text of the owned table: how it is composed and how a listing of it is classified (nft.rs). */
module NftText {
  import opened Wrappers
  import opened Text
  import opened Nft

  // ------------------------------------------------------------ printing

  // The phrases that the script is printed with and the classifier looks for.

  function TcpPhrase(): string { "meta l4proto tcp" }
  function StatePhrase(): string { "ct state" }
  function DropPhrase(): string { "new drop" }
  function QueuePhrase(): string { "queue num 4242" }
  function LoopbackOut(): string { "oifname \"lo\"" }
  function LoopbackIn(): string { "iifname \"lo\"" }
  function TablePhrase(): string { "table inet interfire" }

  function NewTcpText(): string { TcpPhrase() + " " + StatePhrase() + " " }

  function RuleText(hook: Hook, r: NftRule): string {
    match r
    case AcceptLoopback => "    " + (if hook.Output? then LoopbackOut() else LoopbackIn()) + " accept\n"
    case AcceptEstablished => "ct state established,related accept\n"
    case DropNew => "    " + NewTcpText() + DropPhrase() + "\n"
    case DropNewFrom(uid) => "    meta skuid " + Show(uid) + " " + NewTcpText() + DropPhrase() + "\n"
    case QueueNew => "    " + NewTcpText() + "new " + QueuePhrase() + "\n"
  }

  function RulesText(hook: Hook, rules: seq<NftRule>): string {
    if rules == [] then "" else RuleText(hook, rules[0]) + RulesText(hook, rules[1..])
  }

  function HookName(hook: Hook): string { if hook.Output? then "output" else "input" }

  function HookText(hook: Hook): string { "type filter hook " + HookName(hook) }
  function PolicyText(): string { " priority filter; policy accept;\n" }

  function Header(hook: Hook): string {
    "  chain " + HookName(hook) + " {\n" + HookText(hook) + PolicyText()
  }

  function ChainText(hook: Hook, chain: Option<seq<NftRule>>): string {
    if chain.None? then "" else Header(hook) + RulesText(hook, chain.value) + "  }\n"
  }

  function Render(t: Table): string {
    if t == ABSENT then ""
    else TablePhrase() + " {\n" + ChainText(Output, t.output) + ChainText(Input, t.input) + "}\n"
  }

  function OwnedHead(): string { " {\nchain output {\n" + HookText(Output) + PolicyText() }

  /** `owned_table_script`, the fixed text that `install` loads. */
  function OwnedScript(): string {
    TablePhrase() + OwnedHead() + LoopbackOut() + " accept\n" + NewTcpText() + "new " + QueuePhrase() + "\n}\n}\n"
  }

  lemma {:induction false} RulesTextSnoc(hook: Hook, rules: seq<NftRule>, r: NftRule)
    ensures RulesText(hook, rules + [r]) == RulesText(hook, rules) + RuleText(hook, r)
  {
    hide RuleText;
    if rules == [] {
      assert [r][1..] == [];
    } else {
      assert (rules + [r])[1..] == rules[1..] + [r];
      RulesTextSnoc(hook, rules[1..], r);
    }
  }

  lemma {:induction false} UserDropsSnoc(users: Users, u: (nat, Preference), hook: Hook)
    ensures UserDrops(users + [u], hook) ==
            UserDrops(users, hook) + if Blocks(u.1, hook) then [DropNewFrom(u.0)] else []
  {
    if users == [] {
      assert users + [u] == [u];
      assert [u][1..] == [];
    } else {
      assert (users + [u])[1..] == users[1..] + [u];
      UserDropsSnoc(users[1..], u, hook);
      var head := if Blocks(users[0].1, hook) then [DropNewFrom(users[0].0)] else [];
      var last := if Blocks(u.1, hook) then [DropNewFrom(u.0)] else [];
      hide UserDrops, Blocks;
      assert head + (UserDrops(users[1..], hook) + last) == head + UserDrops(users[1..], hook) + last;
    }
  }

  /** The per-user drop lines of one chain, appended to its buffer. */
  method AppendUserDrops(hook: Hook, users: Users, buffer: string, ghost rules: seq<NftRule>)
    returns (text: string, needed: bool)
    requires buffer == RulesText(hook, rules)
    ensures text == RulesText(hook, rules + UserDrops(users, hook))
    ensures needed <==> UserDrops(users, hook) != []
  {
    hide RuleText;
    text, needed := buffer, false;
    assert rules + UserDrops([], hook) == rules;
    var i := 0;
    while i < |users|
      invariant 0 <= i <= |users|
      invariant text == RulesText(hook, rules + UserDrops(users[..i], hook))
      invariant needed <==> UserDrops(users[..i], hook) != []
    {
      var (uid, preference) := users[i];
      ghost var drops := UserDrops(users[..i], hook);
      UserDropsSnoc(users[..i], users[i], hook);
      assert users[..i + 1] == users[..i] + [users[i]];
      if Blocks(preference, hook) {
        needed := true;
        text := text + RuleText(hook, DropNewFrom(uid));
        RulesTextSnoc(hook, rules + drops, DropNewFrom(uid));
        assert rules + (drops + [DropNewFrom(uid)]) == rules + drops + [DropNewFrom(uid)];
      } else {
        assert drops + [] == drops;
      }
      i := i + 1;
    }
    assert users[..i] == users;
  }

  /** One chain's buffer and whether the chain is needed at all. */
  method ComposeChain(hook: Hook, machine: Preference, users: Users, queues: bool)
    returns (text: string, needed: bool)
    ensures text == RulesText(hook, PREAMBLE + Body(machine, users, queues, hook))
    ensures needed <==> Body(machine, users, queues, hook) != []
  {
    hide RuleText;
    text := RuleText(hook, AcceptLoopback) + RuleText(hook, AcceptEstablished);
    assert text == RulesText(hook, PREAMBLE) by {
      assert PREAMBLE[1..] == [AcceptEstablished];
      assert [AcceptEstablished][1..] == [];
    }
    needed := false;
    if Blocks(machine, hook) {
      needed := true;
      text := text + RuleText(hook, DropNew);
      RulesTextSnoc(hook, PREAMBLE, DropNew);
    } else {
      text, needed := AppendUserDrops(hook, users, text, PREAMBLE);
      ghost var drops := UserDrops(users, hook);
      if queues && hook.Output? {
        needed := true;
        text := text + RuleText(hook, QueueNew);
        RulesTextSnoc(hook, PREAMBLE + drops, QueueNew);
        assert PREAMBLE + (drops + [QueueNew]) == PREAMBLE + drops + [QueueNew];
      } else {
        assert drops + [] == drops;
      }
    }
  }

  /** `compose_traffic_script`: the buffers and flags print exactly the composed table. */
  method ComposeTrafficScript(machine: Preference, users: Users, rulesActive: bool, queueBound: bool)
    returns (script: string)
    ensures script == Render(Composed(machine, users, rulesActive, queueBound))
  {
    hide RulesText, Body, Header, TablePhrase;
    var outputRules, needOutput := ComposeChain(Output, machine, users, rulesActive && queueBound);
    var inputRules, needInput := ComposeChain(Input, machine, users, rulesActive && queueBound);
    if !needOutput && !needInput {
      return "";
    }
    script := TablePhrase() + " {\n";
    if needOutput {
      script := script + (Header(Output) + outputRules + "  }\n");
    }
    if needInput {
      script := script + (Header(Input) + inputRules + "  }\n");
    }
    script := script + "}\n";
    assert forall s: string :: s + "" == s;
  }

  // ------------------------------------------------------------ classifying a listing

  datatype Gap = Start | Word | Between

  /** Split on whitespace and rejoin with single blanks; `prev` says what stands before `s`. */
  function Flat(s: string, prev: Gap): string {
    if s == "" then ""
    else if IsSpace(s[0]) then Flat(s[1..], if prev.Start? then Start else Between)
    else (if prev.Between? then " " else "") + [s[0]] + Flat(s[1..], Word)
  }

  datatype TableState = Missing | Installed | Incomplete

  /** `classify_list_output`: the state and the rule token. */
  function Classify(stdout: string): (TableState, string) {
    var flat := Flat(stdout, Start);
    if !Contains(flat, TablePhrase()) then (Missing, "none")
    else
      var hasQueue := Contains(flat, QueuePhrase());
      var hasTcpNew := Contains(flat, TcpPhrase()) && (Contains(flat, "ct state new") || Contains(flat, StatePhrase()));
      var hasDrop := Contains(flat, " drop") || (|flat| >= 4 && flat[|flat| - 4..] == "drop");
      var hasLo := Contains(flat, LoopbackOut()) || Contains(flat, "oifname lo");
      if hasQueue && hasTcpNew then (Installed, "tcp_new_queue_4242")
      else if hasDrop && hasTcpNew && hasLo then (Installed, "tcp_new_drop")
      else (Incomplete, "none")
  }

  // a phrase survives flattening -------------------------------------------------

  /** Words separated by single blanks: every space is a blank with a word character behind it. */
  predicate Phrase(w: string) {
    forall i :: 0 <= i < |w| && IsSpace(w[i]) ==> w[i] == ' ' && i + 1 < |w| && !IsSpace(w[i + 1])
  }

  predicate Findable(w: string) {
    w != "" && !IsSpace(w[0]) && Phrase(w)
  }

  lemma PhraseTail(w: string)
    requires Phrase(w) && w != ""
    ensures Phrase(w[1..])
  {
    forall i | 0 <= i < |w[1..]| && IsSpace(w[1..][i])
      ensures w[1..][i] == ' ' && i + 1 < |w[1..]| && !IsSpace(w[1..][i + 1])
    {
      assert IsSpace(w[i + 1]);
    }
  }

  lemma FlatLetter(c: char, rest: string)
    requires !IsSpace(c)
    ensures Flat([c] + rest, Word) == [c] + Flat(rest, Word)
  {
    assert ([c] + rest)[1..] == rest;
    assert "" + [c] == [c];
  }

  lemma FlatBlank(c: char, rest: string)
    requires !IsSpace(c)
    ensures Flat([' ', c] + rest, Word) == [' ', c] + Flat(rest, Word)
  {
    var s := [' ', c] + rest;
    assert s[1..] == [c] + rest && s[1..][1..] == rest;
    assert Flat(s, Word) == Flat(s[1..], Between);
    assert " " + [c] == [' ', c];
  }

  lemma {:induction false} FlatPhrase(w: string, rest: string)
    requires Phrase(w)
    ensures Flat(w + rest, Word) == w + Flat(rest, Word)
  {
    if w == "" {
      assert w + rest == rest;
    } else {
      PhraseTail(w);
      assert IsSpace(w[0]) ==> w[0] == ' ' && |w| > 1 && !IsSpace(w[1]);
      if IsSpace(w[0]) {
        PhraseTail(w[1..]);
        hide Phrase, IsSpace, Flat;
        var tail := w[1..][1..];
        FlatPhrase(tail, rest);
        FlatBlank(w[1], tail + rest);
        assert w == [' ', w[1]] + tail;
        assert w + rest == [' ', w[1]] + (tail + rest);
      } else {
        hide Phrase, IsSpace, Flat;
        FlatPhrase(w[1..], rest);
        FlatLetter(w[0], w[1..] + rest);
        assert w == [w[0]] + w[1..];
        assert w + rest == [w[0]] + (w[1..] + rest);
      }
    }
  }

  lemma {:induction false} FlatOccurs(a: string, w: string, b: string, prev: Gap)
    requires w != "" && !IsSpace(w[0]) && Phrase(w)
    ensures Contains(Flat(a + w + b, prev), w)
  {
    var s := a + w + b;
    if a == "" {
      assert s == w + b && s[1..] == w[1..] + b;
      PhraseTail(w);
      FlatPhrase(w[1..], b);
      var lead := if prev.Between? then " " else "";
      assert Flat(s, prev) == lead + w + Flat(b, Word);
      ContainsMiddle(lead, w, Flat(b, Word));
    } else {
      assert s[1..] == a[1..] + w + b;
      var next := if !IsSpace(a[0]) then Word else if prev.Start? then Start else Between;
      FlatOccurs(a[1..], w, b, next);
      var lead := if IsSpace(a[0]) then "" else (if prev.Between? then " " else "") + [a[0]];
      assert Flat(s, prev) == lead + Flat(s[1..], next);
      ContainsEither(lead, Flat(s[1..], next), w);
    }
  }

  lemma FlatContains(s: string, w: string)
    requires Findable(w) && Contains(s, w)
    ensures Contains(Flat(s, Start), w)
  {
    var i :| 0 <= i <= |s| && OccursAt(s, w, i);
    assert s == s[..i] + w + s[i + |w|..];
    FlatOccurs(s[..i], w, s[i + |w|..], Start);
  }

  // a character or a pair of neighbours that is absent stays absent ----------------

  lemma {:induction false} FlatChars(s: string, prev: Gap, c: char)
    requires c !in s && c != ' '
    ensures c !in Flat(s, prev)
  {
    if s != "" {
      FlatChars(s[1..], if !IsSpace(s[0]) then Word else if prev.Start? then Start else Between, c);
    }
  }

  /** `o` is never followed by `i`. */
  predicate NoOi(s: string) {
    forall i :: 0 <= i < |s| - 1 && s[i] == 'o' ==> s[i + 1] != 'i'
  }

  lemma {:induction false} FlatNoOi(s: string, prev: Gap)
    requires NoOi(s)
    ensures NoOi(Flat(s, prev))
    ensures prev.Word? && Flat(s, prev) != "" && Flat(s, prev)[0] == 'i' ==> s[0] == 'i'
    ensures prev.Between? && Flat(s, prev) != "" ==> Flat(s, prev)[0] == ' '
  {
    if s != "" {
      var next := if !IsSpace(s[0]) then Word else if prev.Start? then Start else Between;
      assert NoOi(s[1..]) by {
        forall i | 0 <= i < |s[1..]| - 1 && s[1..][i] == 'o' ensures s[1..][i + 1] != 'i' {
          assert s[i + 1] == 'o';
        }
      }
      FlatNoOi(s[1..], next);
      if !IsSpace(s[0]) {
        var lead, tail := (if prev.Between? then " " else "") + [s[0]], Flat(s[1..], Word);
        assert Flat(s, prev) == lead + tail;
        assert tail != "" && s[0] == 'o' ==> tail[0] != 'i';
      }
    }
  }

  lemma NoOiNoNeedle(s: string, needle: string)
    requires NoOi(s) && |needle| >= 2 && needle[0] == 'o' && needle[1] == 'i'
    ensures !Contains(s, needle)
  {
    forall i | 0 <= i <= |s| ensures !OccursAt(s, needle, i) {
      if OccursAt(s, needle, i) {
        assert false;
      }
    }
  }

  // ------------------------------------------------------------ what a composed script is classified as

  predicate Acts(r: NftRule) { !r.AcceptLoopback? && !r.AcceptEstablished? }

  lemma NewTcpContains(a: string, b: string)
    ensures Contains(a + NewTcpText() + b, TcpPhrase()) && Contains(a + NewTcpText() + b, StatePhrase())
  {
    hide TcpPhrase, StatePhrase, Contains;
    var tcp, state := TcpPhrase(), StatePhrase();
    assert a + NewTcpText() + b == a + tcp + (" " + state + " " + b);
    ContainsMiddle(a, tcp, " " + state + " " + b);
    assert a + NewTcpText() + b == (a + tcp + " ") + state + (" " + b);
    ContainsMiddle(a + tcp + " ", state, " " + b);
  }

  lemma ActsOnNewTcp(hook: Hook, r: NftRule)
    requires Acts(r)
    ensures Contains(RuleText(hook, r), TcpPhrase()) && Contains(RuleText(hook, r), StatePhrase())
    ensures Contains(RuleText(hook, r), if r.QueueNew? then QueuePhrase() else DropPhrase())
  {
    hide TcpPhrase, StatePhrase, DropPhrase, QueuePhrase, NewTcpText, Contains;
    var lead := if r.DropNewFrom? then "    meta skuid " + Show(r.uid) + " " else "    ";
    var tail := if r.QueueNew? then "new " + QueuePhrase() + "\n" else DropPhrase() + "\n";
    assert RuleText(hook, r) == lead + NewTcpText() + tail;
    NewTcpContains(lead, tail);
    ContainsMiddle(if r.QueueNew? then "new " else "", if r.QueueNew? then QueuePhrase() else DropPhrase(), "\n");
    assert "" + DropPhrase() + "\n" == DropPhrase() + "\n";
    ContainsEither(lead + NewTcpText(), tail, if r.QueueNew? then QueuePhrase() else DropPhrase());
  }

  lemma {:induction false} RulesTextContains(hook: Hook, rules: seq<NftRule>, r: NftRule)
    requires r in rules
    ensures Contains(RulesText(hook, rules), RuleText(hook, r))
  {
    hide RuleText;
    var head, tail := RuleText(hook, rules[0]), RulesText(hook, rules[1..]);
    if rules[0] == r {
      ContainsMiddle("", head, tail);
      assert "" + head + tail == head + tail;
    } else {
      RulesTextContains(hook, rules[1..], r);
      ContainsEither(head, tail, RuleText(hook, r));
    }
  }

  lemma RenderContains(t: Table, hook: Hook, r: NftRule, needle: string)
    requires Chain(t, hook).Some? && r in Chain(t, hook).value && Contains(RuleText(hook, r), needle)
    ensures Contains(Render(t), needle)
  {
    hide RuleText, Header, RulesText, Contains, TablePhrase;
    var opening := TablePhrase() + " {\n";
    var rules := Chain(t, hook).value;
    RulesTextContains(hook, rules, r);
    ContainsTrans(RulesText(hook, rules), RuleText(hook, r), needle);
    ContainsEither(Header(hook), RulesText(hook, rules), needle);
    ContainsEither(Header(hook) + RulesText(hook, rules), "  }\n", needle);
    var o, i := ChainText(Output, t.output), ChainText(Input, t.input);
    if hook.Output? {
      ContainsEither(opening, o, needle);
    }
    ContainsEither(opening + o, i, needle);
    ContainsEither(opening + o + i, "}\n", needle);
  }

  lemma RulePhrases()
    ensures Phrase(TcpPhrase()) && Phrase(StatePhrase())
  {
  }

  lemma DropIsPhrase()
    ensures Phrase(DropPhrase())
  {
  }

  lemma MarkPhrases()
    ensures Phrase(QueuePhrase()) && Phrase(LoopbackOut())
  {
    QueueIsPhrase();
    LoopbackIsPhrase();
    hide Phrase;
  }

  lemma QueueIsPhrase()
    ensures Phrase(QueuePhrase())
  {
  }

  lemma LoopbackIsPhrase()
    ensures Phrase(LoopbackOut())
  {
  }

  lemma TitlePhrase()
    ensures Findable(TablePhrase())
  {
  }

  /** A phrase printed by a rule of the table is found in the flattened script. */
  lemma RulePhraseFound(t: Table, hook: Hook, r: NftRule, phrase: string)
    requires Chain(t, hook).Some? && r in Chain(t, hook).value && Contains(RuleText(hook, r), phrase)
    requires Findable(phrase)
    ensures Contains(Flat(Render(t), Start), phrase)
  {
    hide RuleText, Render, Contains, Flat, Findable;
    RenderContains(t, hook, r, phrase);
    FlatContains(Render(t), phrase);
  }

  lemma TitleFound(t: Table)
    requires t != ABSENT
    ensures Contains(Flat(Render(t), Start), TablePhrase())
  {
    hide TablePhrase, Contains, Flat, Findable, ChainText;
    TitlePhrase();
    var rest := " {\n" + ChainText(Output, t.output) + ChainText(Input, t.input) + "}\n";
    assert Render(t) == "" + TablePhrase() + rest;
    ContainsMiddle("", TablePhrase(), rest);
    FlatContains(Render(t), TablePhrase());
  }

  // absence ------------------------------------------------------------------

  lemma RuleWordsNoQ()
    ensures 'q' !in TcpPhrase() && 'q' !in StatePhrase() && 'q' !in DropPhrase()
    ensures 'q' !in LoopbackOut() && 'q' !in LoopbackIn()
  {
  }

  lemma EstablishedNoQ(hook: Hook)
    ensures 'q' !in RuleText(hook, AcceptEstablished)
  {
  }

  lemma RuleNoQ(hook: Hook, r: NftRule)
    requires !r.QueueNew?
    ensures 'q' !in RuleText(hook, r)
  {
    hide TcpPhrase, StatePhrase, DropPhrase, LoopbackOut, LoopbackIn;
    RuleWordsNoQ();
    match r
    case AcceptEstablished => EstablishedNoQ(hook);
    case DropNewFrom(uid) => assert 'q' !in Show(uid);
    case _ =>
  }

  lemma {:induction false} RulesNoQ(hook: Hook, rules: seq<NftRule>)
    requires QueueNew !in rules
    ensures 'q' !in RulesText(hook, rules)
  {
    hide RuleText;
    if rules != [] {
      RuleNoQ(hook, rules[0]);
      RulesNoQ(hook, rules[1..]);
    }
  }

  lemma HeaderNoQ(hook: Hook)
    ensures 'q' !in Header(hook)
  {
    assert 'q' !in HookText(hook) by { HookTextNoQ(hook); }
    assert 'q' !in PolicyText() by { PolicyNoQ(); }
    hide HookText, PolicyText;
  }

  lemma HookTextNoQ(hook: Hook)
    ensures 'q' !in HookText(hook)
  {
  }

  lemma PolicyNoQ()
    ensures 'q' !in PolicyText()
  {
  }

  lemma TitleNoQ()
    ensures 'q' !in TablePhrase() && QueuePhrase() != "" && QueuePhrase()[0] == 'q'
  {
  }

  lemma ChainNoQ(hook: Hook, chain: Option<seq<NftRule>>)
    requires chain.Some? ==> QueueNew !in chain.value
    ensures 'q' !in ChainText(hook, chain)
  {
    hide Header, RulesText;
    HeaderNoQ(hook);
    if chain.Some? {
      RulesNoQ(hook, chain.value);
    }
  }

  /** A script without the queue rule does not even contain the letter q. */
  lemma NoQueueFound(t: Table)
    requires t.output.Some? ==> QueueNew !in t.output.value
    requires t.input.Some? ==> QueueNew !in t.input.value
    ensures !Contains(Flat(Render(t), Start), QueuePhrase())
  {
    hide ChainText, Flat, TablePhrase, QueuePhrase;
    TitleNoQ();
    ChainNoQ(Output, t.output);
    ChainNoQ(Input, t.input);
    FlatChars(Render(t), Start, 'q');
    AbsentFirst(Flat(Render(t), Start), QueuePhrase());
  }

  lemma AbsentFirst(s: string, needle: string)
    requires needle != "" && needle[0] !in s
    ensures !Contains(s, needle)
  {
    forall i | 0 <= i <= |s| ensures !OccursAt(s, needle, i) {
      if OccursAt(s, needle, i) {
        assert false;
      }
    }
  }

  lemma NoOiAppend(a: string, b: string)
    requires NoOi(a) && NoOi(b) && (a != "" ==> a[|a| - 1] != 'o')
    ensures NoOi(a + b)
  {
  }

  /** No `oi` inside, and the last character is not `o`, so that anything may follow. */
  predicate Clean(s: string) {
    NoOi(s) && (s != "" ==> s[|s| - 1] != 'o')
  }

  lemma CleanAppend(a: string, b: string)
    requires Clean(a) && Clean(b)
    ensures Clean(a + b)
  {
    NoOiAppend(a, b);
  }

  lemma DigitsClean(n: nat)
    ensures Clean(Show(n))
  {
    assert forall i :: 0 <= i < |Show(n)| ==> IsDigit(Show(n)[i]);
  }

  lemma WordsClean()
    ensures Clean(TcpPhrase()) && Clean(StatePhrase()) && Clean(DropPhrase()) && Clean(QueuePhrase())
    ensures Clean(LoopbackIn()) && Clean(" ") && Clean("\n") && Clean("    ")
    ensures Clean("new ") && Clean(" accept\n") && Clean("    meta skuid ")
  {
  }

  lemma EstablishedClean(hook: Hook)
    ensures Clean(RuleText(hook, AcceptEstablished))
  {
  }

  lemma FrameClean()
    ensures Clean(HookText(Input)) && Clean(PolicyText())
    ensures Clean("  chain ") && Clean("input") && Clean(" {\n")
    ensures Clean("  }\n") && Clean("}\n") && Clean(TablePhrase())
  {
  }

  lemma RuleClean(r: NftRule)
    ensures Clean(RuleText(Input, r))
  {
    hide Clean, TcpPhrase, StatePhrase, DropPhrase, QueuePhrase, LoopbackIn, LoopbackOut;
    WordsClean();
    CleanAppend(TcpPhrase(), " ");
    CleanAppend(TcpPhrase() + " ", StatePhrase());
    CleanAppend(TcpPhrase() + " " + StatePhrase(), " ");
    var tcp := NewTcpText();
    match r
    case AcceptLoopback =>
      CleanAppend("    ", LoopbackIn());
      CleanAppend("    " + LoopbackIn(), " accept\n");
    case AcceptEstablished => EstablishedClean(Input);
    case DropNew =>
      CleanAppend("    ", tcp);
      CleanAppend("    " + tcp, DropPhrase());
      CleanAppend("    " + tcp + DropPhrase(), "\n");
    case DropNewFrom(uid) =>
      DigitsClean(uid);
      CleanAppend("    meta skuid ", Show(uid));
      var lead := "    meta skuid " + Show(uid);
      CleanAppend(lead, " ");
      CleanAppend(lead + " ", tcp);
      CleanAppend(lead + " " + tcp, DropPhrase());
      CleanAppend(lead + " " + tcp + DropPhrase(), "\n");
    case QueueNew =>
      CleanAppend("    ", tcp);
      CleanAppend("    " + tcp, "new ");
      CleanAppend("    " + tcp + "new ", QueuePhrase());
      CleanAppend("    " + tcp + "new " + QueuePhrase(), "\n");
  }

  lemma {:induction false} RulesClean(rules: seq<NftRule>)
    ensures Clean(RulesText(Input, rules))
  {
    hide RuleText;
    if rules != [] {
      RuleClean(rules[0]);
      RulesClean(rules[1..]);
      CleanAppend(RuleText(Input, rules[0]), RulesText(Input, rules[1..]));
    }
  }

  lemma HeaderClean()
    ensures Clean(Header(Input))
  {
    hide Clean, HookText, PolicyText;
    FrameClean();
    CleanAppend("  chain ", "input");
    CleanAppend("  chain " + "input", " {\n");
    CleanAppend("  chain " + "input" + " {\n", HookText(Input));
    CleanAppend("  chain " + "input" + " {\n" + HookText(Input), PolicyText());
  }

  /** A script with only an input chain never mentions the outgoing loopback interface. */
  lemma NoLoopbackFound(t: Table)
    requires t.output.None? && t.input.Some?
    ensures !Contains(Flat(Render(t), Start), LoopbackOut()) && !Contains(Flat(Render(t), Start), "oifname lo")
  {
    hide Clean, RulesText, Header, TablePhrase, Flat, Contains, NoOi;
    FrameClean();
    HeaderClean();
    var rules := RulesText(Input, t.input.value);
    RulesClean(t.input.value);
    CleanAppend(Header(Input), rules);
    CleanAppend(Header(Input) + rules, "  }\n");
    var chain := Header(Input) + rules + "  }\n";
    CleanAppend(TablePhrase(), " {\n");
    CleanAppend(TablePhrase() + " {\n", chain);
    CleanAppend(TablePhrase() + " {\n" + chain, "}\n");
    assert TablePhrase() + " {\n" + "" == TablePhrase() + " {\n";
    CleanHasNoOi(Render(t));
    FlatNoOi(Render(t), Start);
    NoOiNoNeedle(Flat(Render(t), Start), LoopbackOut());
    NoOiNoNeedle(Flat(Render(t), Start), "oifname lo");
  }

  lemma CleanHasNoOi(s: string)
    requires Clean(s)
    ensures NoOi(s)
  {
  }

  // ------------------------------------------------------------ the classification theorem

  lemma {:induction false} UserDropsShape(users: Users, hook: Hook)
    ensures forall r :: r in UserDrops(users, hook) ==> r.DropNewFrom?
  {
    if users != [] {
      UserDropsShape(users[1..], hook);
    }
  }

  /** Each composed chain starts with the preamble and then only acts; the queue rule is outgoing. */
  lemma ChainShape(machine: Preference, users: Users, queues: bool, hook: Hook)
    ensures var chain := ChainFor(machine, users, queues, hook);
            chain.Some? ==>
              && |chain.value| > 2 && chain.value[0] == AcceptLoopback
              && Acts(chain.value[2]) && chain.value[2] in chain.value
              && (QueueNew in chain.value ==> hook.Output?)
              && (QueueNew !in chain.value ==> !chain.value[2].QueueNew?)
  {
    UserDropsShape(users, hook);
    var body := Body(machine, users, queues, hook);
    if body != [] {
      assert body[0] in body && (PREAMBLE + body)[2] == body[0];
      assert forall r :: r in body ==> r in UserDrops(users, hook) || r.DropNew? || r.QueueNew?;
      assert forall r :: r in PREAMBLE + body <==> r in PREAMBLE || r in body;
    }
  }

  lemma ActsFound(t: Table, hook: Hook, r: NftRule)
    requires Chain(t, hook).Some? && r in Chain(t, hook).value && Acts(r)
    ensures var flat := Flat(Render(t), Start);
            && Contains(flat, TcpPhrase()) && Contains(flat, StatePhrase())
            && (r.QueueNew? ==> Contains(flat, QueuePhrase()))
            && (!r.QueueNew? ==> Contains(flat, " drop"))
  {
    hide RuleText, Render, Flat, TcpPhrase, StatePhrase, QueuePhrase, DropPhrase, Findable, Contains;
    AllFindable();
    ActsOnNewTcp(hook, r);
    RulePhraseFound(t, hook, r, TcpPhrase());
    RulePhraseFound(t, hook, r, StatePhrase());
    if r.QueueNew? {
      RulePhraseFound(t, hook, r, QueuePhrase());
    } else {
      RulePhraseFound(t, hook, r, DropPhrase());
      DropIsDrop();
      ContainsTrans(Flat(Render(t), Start), DropPhrase(), " drop");
    }
  }

  lemma DropIsDrop()
    ensures Contains(DropPhrase(), " drop")
  {
    assert DropPhrase() == "new" + " drop" + "";
    ContainsMiddle("new", " drop", "");
  }

  lemma AllFindable()
    ensures Findable(TcpPhrase()) && Findable(StatePhrase()) && Findable(DropPhrase())
    ensures Findable(QueuePhrase()) && Findable(LoopbackOut())
  {
    RulePhrases();
    DropIsPhrase();
    MarkPhrases();
    hide Phrase;
  }

  lemma LoopbackFound(t: Table)
    requires t.output.Some? && AcceptLoopback in t.output.value
    ensures Contains(Flat(Render(t), Start), LoopbackOut())
  {
    hide Render, Flat, LoopbackOut, Findable, Contains;
    AllFindable();
    assert RuleText(Output, AcceptLoopback) == "    " + LoopbackOut() + " accept\n";
    ContainsMiddle("    ", LoopbackOut(), " accept\n");
    RulePhraseFound(t, Output, AcceptLoopback, LoopbackOut());
  }

  /**
   Classifying the listing of a composed table: Missing exactly when there is no table, the queue token exactly
   when the queue rule is there, the drop token exactly when there is an output chain without it, and
   Incomplete exactly when there is only an input chain.
   */
  lemma ClassifyComposed(machine: Preference, users: Users, active: bool, bound: bool)
    ensures var t := Composed(machine, users, active, bound);
            Classify(Render(t)) ==
            if t == ABSENT then (Missing, "none")
            else if t.output.None? then (Incomplete, "none")
            else if QueueNew in t.output.value then (Installed, "tcp_new_queue_4242")
            else (Installed, "tcp_new_drop")
  {
    var t := Composed(machine, users, active, bound);
    ChainShape(machine, users, active && bound, Output);
    ChainShape(machine, users, active && bound, Input);
    hide Classify, Render, Acts, ChainFor;
    if t == ABSENT {
      EmptyIsMissing();
    } else if t.output.None? {
      ClassifyInputOnly(t);
    } else {
      ClassifyOutput(t);
    }
  }

  lemma ClassifyInputOnly(t: Table)
    requires t.output.None? && t.input.Some? && |t.input.value| > 2 && Acts(t.input.value[2])
    requires QueueNew !in t.input.value
    ensures Classify(Render(t)) == (Incomplete, "none")
  {
    hide Render, Flat, TcpPhrase, StatePhrase, QueuePhrase, LoopbackOut, TablePhrase, Contains;
    TitleFound(t);
    NoQueueFound(t);
    NoLoopbackFound(t);
  }

  lemma ClassifyOutput(t: Table)
    requires t.output.Some? && |t.output.value| > 2 && AcceptLoopback in t.output.value && Acts(t.output.value[2])
    requires t.input.Some? ==> QueueNew !in t.input.value
    requires QueueNew !in t.output.value ==> !t.output.value[2].QueueNew?
    ensures Classify(Render(t)) ==
            (Installed, if QueueNew in t.output.value then "tcp_new_queue_4242" else "tcp_new_drop")
  {
    hide Render, Flat, TcpPhrase, StatePhrase, QueuePhrase, LoopbackOut, TablePhrase, Contains, Acts;
    TitleFound(t);
    ActsFound(t, Output, t.output.value[2]);
    if QueueNew in t.output.value {
      ActsFoundQueue(t);
    } else {
      NoQueueFound(t);
      LoopbackFound(t);
    }
  }

  lemma ActsFoundQueue(t: Table)
    requires t.output.Some? && QueueNew in t.output.value
    ensures Contains(Flat(Render(t), Start), QueuePhrase())
  {
    hide Render, Flat, Contains, QueuePhrase;
    ActsFound(t, Output, QueueNew);
  }

  lemma EmptyIsMissing()
    ensures Classify("") == (Missing, "none") && Render(ABSENT) == ""
  {
    assert Flat("", Start) == "";
    assert !Contains("", TablePhrase()) by {
      assert forall i :: !OccursAt("", TablePhrase(), i);
    }
  }

  /** The fixed script is classified like a composed one with the queue rule. */
  lemma ClassifyOwned()
    ensures Classify(OwnedScript()) == (Installed, "tcp_new_queue_4242")
  {
    hide TablePhrase, OwnedHead, LoopbackOut, TcpPhrase, StatePhrase, QueuePhrase, NewTcpText, Contains, Flat, Findable;
    var script := OwnedScript();
    AllFindable();
    TitlePhrase();
    var lead := TablePhrase() + OwnedHead() + LoopbackOut() + " accept\n";
    var tail := "new " + QueuePhrase() + "\n}\n}\n";
    assert script == "" + TablePhrase() + (OwnedHead() + LoopbackOut() + " accept\n" + NewTcpText() + tail);
    ContainsMiddle("", TablePhrase(), OwnedHead() + LoopbackOut() + " accept\n" + NewTcpText() + tail);
    assert script == lead + NewTcpText() + tail;
    NewTcpContains(lead, tail);
    ContainsMiddle("new ", QueuePhrase(), "\n}\n}\n");
    ContainsEither(lead + NewTcpText(), tail, QueuePhrase());
    FlatContains(script, TablePhrase());
    FlatContains(script, TcpPhrase());
    FlatContains(script, StatePhrase());
    FlatContains(script, QueuePhrase());
  }
}
