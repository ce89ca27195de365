/** The IPC handlers that answer prompts and edit rules (ipc.rs). */
module Ipc {
  import opened Wrappers
  import opened Collections
  import opened Rules
  import opened Prompts

  function MaxId(rules: seq<Rule>): (m: nat)
    ensures forall r :: r in rules ==> r.id <= m
    ensures m == 0 || exists r :: r in rules && r.id == m
  {
    if rules == [] then 0
    else
      var rest := MaxId(rules[1..]);
      assert rules == [rules[0]] + rules[1..];
      if rules[0].id > rest then rules[0].id else rest
  }

  /** The rule a Session or Permanent answer becomes: tcp, outbound, this port, one id above all others. */
  function AnsweredRule(rules: seq<Rule>, reply: Reply): Rule {
    Rule(SaturatingInc(MaxId(rules)), reply.key.executable, Some(Tcp), Some(Outbound), None, None,
         Some(reply.key.port), reply.verdict, reply.scope)
  }

  /** A rejected rule leaves the set alone; a failed save does not take the rule back. */
  function Persisted(rules: seq<Rule>, reply: Reply): seq<Rule> {
    match Inserted(rules, AnsweredRule(rules, reply))
    case Ok(after) => after
    case Err(_) => rules
  }

  /** The insertion succeeds exactly for an absolute executable while ids are not exhausted. */
  lemma {:induction false} PersistSucceeds(rules: seq<Rule>, reply: Reply)
    requires forall r :: r in rules ==> r.id <= U64_MAX
    ensures Inserted(rules, AnsweredRule(rules, reply)).Ok? <==>
            Absolute(reply.key.executable) && forall r :: r in rules ==> r.id < U64_MAX
  {
    var id := AnsweredRule(rules, reply).id;
    if MaxId(rules) == U64_MAX {
      assert exists r :: r in rules && r.id == id;
    }
  }

  /**
   The new rule decides a connection for its executable and port exactly when no matching rule has
   more than three constraints: against an equally specific one its id wins.
   */
  lemma AnsweredRuleDecides(rules: seq<Rule>, reply: Reply, c: Connection)
    requires WellFormed(rules) && Inserted(rules, AnsweredRule(rules, reply)).Ok?
    requires c.executable == reply.key.executable && c.port == reply.key.port
    requires c.protocol.Tcp? && c.direction.Outbound?
    ensures var r := AnsweredRule(rules, reply);
            Best(Persisted(rules, reply), c) == Some(r) <==>
            forall o :: o in rules && Matches(o, c) ==> Constraints(o) <= 3
  {
    var r, after := AnsweredRule(rules, reply), Persisted(rules, reply);
    assert Constraints(r) == 3 && Matches(r, c);
    InsertKeepsWellFormed(rules, r);
    BestIsTop(after, c);
    if forall o :: o in rules && Matches(o, c) ==> Constraints(o) <= 3 {
      assert Top(after, c, r) by {
        assert forall o :: o in rules ==> o.id < r.id;
      }
      TopDecides(after, c, r);
    }
  }

  method PersistAnsweredRule(rules: RuleSet, reply: Reply, saves: bool) returns (code: Option<string>)
    requires rules.Valid()
    modifies rules
    ensures rules.Valid() && rules.rules == Persisted(old(rules.rules), reply)
    ensures code == if Inserted(old(rules.rules), AnsweredRule(old(rules.rules), reply)).Err? then Some("invalid_rule")
                    else if reply.scope.Permanent? && !saves then Some("persistence_failed")
                    else None
  {
    var e := rules.Insert(AnsweredRule(rules.rules, reply));
    if e.Some? {
      return Some("invalid_rule");
    }
    if reply.scope.Permanent? && !saves {
      return Some("persistence_failed");
    }
    code := None;
  }

  datatype Response = Pong | Error(code: string)

  function ParseVerdict(s: string): Option<Verdict> {
    if s == "allow" then Some(Allow) else if s == "deny" then Some(Deny) else None
  }

  function ParseScope(s: string): Option<Scope> {
    if s == "once" then Some(Once) else if s == "session" then Some(Session)
    else if s == "permanent" then Some(Permanent) else None
  }

  /** The words of the protocol, and that there are no others. */
  lemma AnswerWords()
    ensures ParseVerdict("allow") == Some(Allow) && ParseVerdict("deny") == Some(Deny)
    ensures forall s :: s != "allow" && s != "deny" ==> ParseVerdict(s) == None
    ensures ParseScope("once") == Some(Once) && ParseScope("session") == Some(Session)
    ensures ParseScope("permanent") == Some(Permanent)
    ensures forall s :: s != "once" && s != "session" && s != "permanent" ==> ParseScope(s) == None
  {
  }

  /** A prompt that can still be answered. */
  predicate Open(q: Queue, id: nat, now: nat) {
    id in q.prompts && q.prompts[id].state == PromptState.Pending && now <= q.prompts[id].expiresAt
  }

  /** The rule of a lasting answer: the prompt's executable and port, outgoing TCP, and the next id above all others. */
  predicate IsAnswerRule(r: Rule, rules: seq<Rule>, key: PromptKey, verdict: Verdict, scope: Scope) {
    && r.executable == key.executable && r.protocol == Some(Tcp) && r.direction == Some(Outbound) && r.address == None
    && r.hostname == None && r.port == Some(key.port) && r.verdict == verdict && r.scope == scope
    && (forall o :: o in rules ==> o.id < r.id) && (r.id == 1 || exists o :: o in rules && o.id + 1 == r.id)
  }

  /** What a fresh answer leaves: the recorded answer, and the token or the rule that it stands for. */
  ghost predicate Takes(
    q: Queue, rules: seq<Rule>, after: Queue, rules': seq<Rule>, id: nat, verdict: Verdict, scope: Scope, later: nat)
    requires id in q.prompts
  {
    var key := q.prompts[id].key;
    && id in after.prompts && after.prompts[id].state == Answered
    && after.prompts[id].answerVerdict == Some(verdict) && after.prompts[id].answerScope == Some(scope)
    && (scope == Once && verdict == Allow ==> key in after.onceAllows && after.onceAllows[key] == later)
    && (scope == Once && verdict == Deny ==> key in after.onceDenies)
    && (scope == Once ==> rules' == rules)
    && (scope != Once && Absolute(key.executable) && (forall o :: o in rules ==> o.id < U64_MAX) ==>
          |rules'| == |rules| + 1 && rules'[..|rules|] == rules &&
          IsAnswerRule(rules'[|rules|], rules, key, verdict, scope))
  }

  lemma FreshTakes(q: Queue, rules: seq<Rule>, id: nat, verdict: Verdict, scope: Scope, now: nat, later: nat)
    requires IdsOk(q) && Open(q, id, now)
    ensures var (after, reply) := Answer(q, id, verdict, scope, now, later);
            Takes(q, rules, after, AfterReply(rules, reply), id, verdict, scope, later)
  {
    AnswerExactly(q, id, verdict, scope, now, later);
    var reply := Answer(q, id, verdict, scope, now, later).1;
    hide Answer;
    if Absolute(q.prompts[id].key.executable) && forall o :: o in rules ==> o.id < U64_MAX {
      AnswerRuleInserted(rules, reply.value);
    }
  }

  lemma AnswerRuleInserted(rules: seq<Rule>, reply: Reply)
    requires Absolute(reply.key.executable) && forall o :: o in rules ==> o.id < U64_MAX
    ensures Inserted(rules, AnsweredRule(rules, reply)).Ok?
    ensures IsAnswerRule(AnsweredRule(rules, reply), rules, reply.key, reply.verdict, reply.scope)
  {
  }

  /** The rules after a reply: only a fresh Session or Permanent one inserts. */
  function AfterReply(rules: seq<Rule>, reply: Result<Reply, AnswerError>): seq<Rule> {
    if reply.Ok? && !reply.value.duplicate && !reply.value.scope.Once? then Persisted(rules, reply.value) else rules
  }

  /** Nothing more was to be done, or the rule was inserted and, where it has to be, saved. */
  predicate Lasts(rules: seq<Rule>, reply: Reply, saves: bool) {
    || reply.duplicate || reply.scope.Once?
    || (Inserted(rules, AnsweredRule(rules, reply)).Ok? && (reply.scope.Permanent? ==> saves))
  }

  /** What the client is told. */
  predicate Told(q: Queue, rules: seq<Rule>, id: nat, scope: Scope, saves: bool, now: nat, response: Response) {
    if id !in q.prompts then response == Error("prompt_not_found")
    else if q.prompts[id].state == Answered then response == Pong
    else if !Open(q, id, now) then response == Error("prompt_expired")
    else
      var executable := q.prompts[id].key.executable;
      && (scope == Once ==> response == Pong)
      && (scope != Once && !Absolute(executable) ==> response == Error("invalid_rule"))
      && (scope != Once && Absolute(executable) && (forall o :: o in rules ==> o.id < U64_MAX) ==>
            response == if scope == Permanent && !saves then Error("persistence_failed") else Pong)
  }

  /** The same, from the reply of the queue. */
  predicate ToldByReply(rules: seq<Rule>, reply: Result<Reply, AnswerError>, saves: bool, response: Response) {
    match reply
    case Err(e) => response == Error(if e.NotFound? then "prompt_not_found" else "prompt_expired")
    case Ok(r) =>
      response ==
      if r.duplicate || r.scope.Once? then Pong
      else if Inserted(rules, AnsweredRule(rules, r)).Err? then Error("invalid_rule")
      else if r.scope.Permanent? && !saves then Error("persistence_failed")
      else Pong
  }

  lemma ToldInWords(q: Queue, rules: seq<Rule>, id: nat, verdict: Verdict, scope: Scope, saves: bool, now: nat,
                    later: nat, response: Response)
    requires IdsOk(q) && ToldByReply(rules, Answer(q, id, verdict, scope, now, later).1, saves, response)
    ensures Told(q, rules, id, scope, saves, now, response)
  {
    AnswerExactly(q, id, verdict, scope, now, later);
    hide Answer, Inserted, AnsweredRule, Absolute, IdsOk;
    var reply := Answer(q, id, verdict, scope, now, later).1;
    if Open(q, id, now) {
      RuleGoesIn(rules, reply.value);
    }
  }

  lemma RuleGoesIn(rules: seq<Rule>, reply: Reply)
    ensures !Absolute(reply.key.executable) ==> Inserted(rules, AnsweredRule(rules, reply)).Err?
    ensures Absolute(reply.key.executable) && (forall o :: o in rules ==> o.id < U64_MAX) ==>
              Inserted(rules, AnsweredRule(rules, reply)).Ok?
  {
    if Absolute(reply.key.executable) && forall o :: o in rules ==> o.id < U64_MAX {
      AnswerRuleInserted(rules, reply);
    }
  }

  method PromptAnswer(authorized: bool, id: nat, verdict: string, scope: string, prompts: PromptQueue, rules: RuleSet,
                      saves: bool, now: nat, later: nat) returns (response: Response)
    requires rules.Valid() && now <= later
    modifies prompts, rules
    ensures rules.Valid()
    ensures !authorized || ParseVerdict(verdict).None? || ParseScope(scope).None? ==>
              prompts.State() == old(prompts.State()) && rules.rules == old(rules.rules)
    ensures !authorized ==> response == Error("unauthorized")
    ensures authorized && ParseVerdict(verdict).None? ==> response == Error("invalid_verdict")
    ensures authorized && ParseVerdict(verdict).Some? && ParseScope(scope).None? ==> response == Error("invalid_scope")
    ensures authorized && ParseVerdict(verdict).Some? && ParseScope(scope).Some? ==>
              var (q, reply) :=
                Answer(old(prompts.State()), id, ParseVerdict(verdict).value, ParseScope(scope).value, now, later);
              && prompts.State() == q && rules.rules == AfterReply(old(rules.rules), reply)
              && (reply.Err? ==>
                    response == Error(if reply.error.NotFound? then "prompt_not_found" else "prompt_expired"))
              && (reply.Ok? ==> (response.Pong? <==> Lasts(old(rules.rules), reply.value, saves)))
    ensures authorized && verdict !in {"allow", "deny"} ==> response == Error("invalid_verdict")
    ensures authorized && verdict in {"allow", "deny"} && scope !in {"once", "session", "permanent"} ==>
              response == Error("invalid_scope")
    ensures authorized && IdsOk(old(prompts.State())) && Open(old(prompts.State()), id, now) &&
            verdict in {"allow", "deny"} && scope in {"once", "session", "permanent"} ==>
              Takes(old(prompts.State()), old(rules.rules), prompts.State(), rules.rules, id,
                    if verdict == "allow" then Allow else Deny,
                    if scope == "once" then Once else if scope == "session" then Session else Permanent, later)
    ensures authorized && IdsOk(old(prompts.State())) &&
            verdict in {"allow", "deny"} && scope in {"once", "session", "permanent"} ==>
              Told(old(prompts.State()), old(rules.rules), id,
                   if scope == "once" then Once else if scope == "session" then Session else Permanent,
                   saves, now, response)
  {
    hide Answer;
    AnswerWords();
    ghost var readable := ParseVerdict(verdict).Some? && ParseScope(scope).Some?;
    if readable && IdsOk(prompts.State()) && Open(prompts.State(), id, now) {
      FreshTakes(prompts.State(), rules.rules, id, ParseVerdict(verdict).value, ParseScope(scope).value, now, later);
    }
    hide ParseVerdict, ParseScope, Takes, IdsOk, AfterReply, Told;
    if !authorized {
      return Error("unauthorized");
    }
    var v, s := ParseVerdict(verdict), ParseScope(scope);
    if v.None? {
      return Error("invalid_verdict");
    }
    if s.None? {
      return Error("invalid_scope");
    }
    ghost var before, ruled := prompts.State(), rules.rules;
    var reply := prompts.Respond(id, v.value, s.value, now, later);
    response := Pong;
    if reply.Err? {
      response := Error(if reply.error.NotFound? then "prompt_not_found" else "prompt_expired");
    } else if !reply.value.duplicate && !reply.value.scope.Once? {
      var code := PersistAnsweredRule(rules, reply.value, saves);
      if code.Some? {
        response := Error(code.value);
      }
    }
    if IdsOk(before) {
      ToldInWords(before, ruled, id, v.value, s.value, saves, now, later, response);
    }
  }

  datatype Mutation = Delete(id: nat) | Add(id: nat, executable: string, verdict: string, port: nat)

  function ParseRuleVerdict(s: string): Option<Verdict> {
    if s == "prompt" then Some(Verdict.Prompt) else ParseVerdict(s)
  }

  function AddedRule(id: nat, executable: string, verdict: Verdict, port: nat): Rule {
    Rule(id, executable, Some(Tcp), Some(Outbound), None, None, Some(port), verdict, Permanent)
  }

  /** The rule set after an authorised edit; a failed save still leaves the edit in memory. */
  function Mutated(rules: seq<Rule>, m: Mutation): seq<Rule> {
    match m
    case Delete(id) => Without(rules, id)
    case Add(id, executable, verdict, port) =>
      match ParseRuleVerdict(verdict)
      case None => rules
      case Some(v) =>
        match Inserted(rules, AddedRule(id, executable, v, port))
        case Ok(after) => after
        case Err(_) => rules
  }

  lemma MutatedKeepsWellFormed(rules: seq<Rule>, m: Mutation)
    requires WellFormed(rules)
    ensures WellFormed(Mutated(rules, m))
  {
    match m
    case Delete(id) => WithoutKeepsWellFormed(rules, id);
    case Add(id, executable, verdict, port) =>
      if ParseRuleVerdict(verdict).Some? {
        var r := AddedRule(id, executable, ParseRuleVerdict(verdict).value, port);
        if Inserted(rules, r).Ok? {
          InsertKeepsWellFormed(rules, r);
        }
      }
  }

  /** The rule to delete is there; the rule to add is new, absolute and readable. */
  predicate Applies(rules: seq<Rule>, m: Mutation) {
    match m
    case Delete(id) => exists r :: r in rules && r.id == id
    case Add(id, executable, verdict, _) =>
      ParseRuleVerdict(verdict).Some? && Absolute(executable) && forall r :: r in rules ==> r.id != id
  }

  method Mutate(authorized: bool, m: Mutation, rules: RuleSet, saves: bool) returns (response: Response)
    requires rules.Valid()
    modifies rules
    ensures rules.Valid()
    ensures rules.rules == if authorized then Mutated(old(rules.rules), m) else old(rules.rules)
    ensures response.Pong? <==> authorized && saves && Applies(old(rules.rules), m)
    ensures authorized && Applies(old(rules.rules), m) && !saves ==> response == Error("persistence_failed")
    ensures !authorized || !Applies(old(rules.rules), m) ==> rules.rules == old(rules.rules)
    ensures m.Add? && m.verdict !in {"allow", "deny", "prompt"} ==> !Applies(old(rules.rules), m)
    ensures authorized && m.Add? && m.verdict in {"allow", "deny", "prompt"} && Applies(old(rules.rules), m) ==>
              rules.rules == old(rules.rules) +
                [Rule(m.id, m.executable, Some(Tcp), Some(Outbound), None, None, Some(m.port),
                      if m.verdict == "allow" then Allow else if m.verdict == "deny" then Deny else Verdict.Prompt,
                      Permanent)]
  {
    if !authorized {
      return Error("unauthorized");
    }
    match m {
      case Delete(id) =>
        WithoutIsExact(rules.rules, id);
        var removed := rules.Remove(id);
        if !removed {
          WithoutAbsent(old(rules.rules), id);
          return Error("rule_not_found");
        }
        response := if saves then Pong else Error("persistence_failed");
      case Add(id, executable, verdict, port) =>
        var v := ParseRuleVerdict(verdict);
        if v.None? {
          return Error("invalid_verdict");
        }
        var e := rules.Insert(AddedRule(id, executable, v.value, port));
        response := if e.Some? then Error("invalid_rule") else if saves then Pong else Error("persistence_failed");
    }
  }
}
