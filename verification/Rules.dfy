/** Deterministic application-firewall rule matching (crates/interfire-rules). */
module Rules {
  import opened Wrappers

  datatype Protocol = Tcp | Udp
  datatype Direction = Outbound | Inbound
  datatype Verdict = Allow | Deny | Prompt
  datatype Scope = Once | Session | Permanent

  datatype Connection = Connection(
    executable: string, protocol: Protocol, direction: Direction,
    address: nat, hostname: Option<string>, port: nat)

  datatype Rule = Rule(
    id: nat, executable: string, protocol: Option<Protocol>, direction: Option<Direction>,
    address: Option<nat>, hostname: Option<string>, port: Option<nat>,
    verdict: Verdict, scope: Scope)

  datatype RuleError = DuplicateId(id: nat) | ExecutableMustBeAbsolute

  /** An absent constraint admits anything. */
  predicate Admits<T(==)>(constraint: Option<T>, value: T) {
    constraint.None? || constraint.value == value
  }

  predicate Matches(r: Rule, c: Connection) {
    && r.executable == c.executable
    && Admits(r.protocol, c.protocol)
    && Admits(r.direction, c.direction)
    && Admits(r.address, c.address)
    && Admits(r.port, c.port)
    && (r.hostname.None? || r.hostname == c.hostname)
  }

  function One(b: bool): nat { if b then 1 else 0 }

  function Constraints(r: Rule): nat {
    One(r.protocol.Some?) + One(r.direction.Some?) + One(r.address.Some?) + One(r.hostname.Some?) + One(r.port.Some?)
  }

  /** `precedence()` pairs compare lexicographically. */
  predicate Outranks(a: Rule, b: Rule) {
    Constraints(a) > Constraints(b) || (Constraints(a) == Constraints(b) && a.id > b.id)
  }

  predicate UniqueIds(rules: seq<Rule>) {
    forall i, j :: 0 <= i < j < |rules| ==> rules[i].id != rules[j].id
  }

  predicate Absolute(executable: string) {
    executable != "" && executable[0] == '/'
  }

  /** What every rule set built by insert, remove and load satisfies. */
  predicate WellFormed(rules: seq<Rule>) {
    UniqueIds(rules) && forall r :: r in rules ==> Absolute(r.executable)
  }

  // ------------------------------------------------------------- matching

  /** `iter().filter(matches).max_by_key(precedence)`: the last maximum wins. */
  function Best(rules: seq<Rule>, c: Connection): Option<Rule> {
    if rules == [] then None
    else
      var last, rest := rules[|rules| - 1], Best(rules[..|rules| - 1], c);
      if Matches(last, c) && (rest.None? || !Outranks(rest.value, last)) then Some(last) else rest
  }

  function VerdictFor(rules: seq<Rule>, c: Connection): Verdict {
    match Best(rules, c)
    case None => Prompt
    case Some(r) => r.verdict
  }

  /** `r` is a matching rule that no matching rule of the set outranks. */
  ghost predicate Top(rules: seq<Rule>, c: Connection, r: Rule) {
    r in rules && Matches(r, c) && forall o :: o in rules && Matches(o, c) ==> !Outranks(o, r)
  }

  lemma {:induction false} BestIsTop(rules: seq<Rule>, c: Connection)
    ensures Best(rules, c).None? <==> forall r :: r in rules ==> !Matches(r, c)
    ensures Best(rules, c).Some? ==> Top(rules, c, Best(rules, c).value)
  {
    if rules != [] {
      var rest := rules[..|rules| - 1];
      BestIsTop(rest, c);
      assert rules == rest + [rules[|rules| - 1]];
    }
  }

  /** With unique ids there is one top rule, and it decides. */
  lemma TopDecides(rules: seq<Rule>, c: Connection, r: Rule)
    requires UniqueIds(rules) && Top(rules, c, r)
    ensures Best(rules, c) == Some(r) && VerdictFor(rules, c) == r.verdict
  {
    BestIsTop(rules, c);
    var b := Best(rules, c).value;
    assert !Outranks(b, r) && !Outranks(r, b);
    assert b.id == r.id;
  }

  /** The verdict does not depend on the order in which the rules are held. */
  lemma VerdictIgnoresOrder(a: seq<Rule>, b: seq<Rule>, c: Connection)
    requires UniqueIds(a) && multiset(a) == multiset(b)
    ensures VerdictFor(a, c) == VerdictFor(b, c)
  {
    SameElements(a, b);
    BestIsTop(a, c);
    BestIsTop(b, c);
    if Best(b, c).Some? {
      assert Top(a, c, Best(b, c).value);
      TopDecides(a, c, Best(b, c).value);
    }
  }

  lemma SameElements(a: seq<Rule>, b: seq<Rule>)
    requires multiset(a) == multiset(b)
    ensures forall r :: r in a <==> r in b
  {
    forall r ensures r in a <==> r in b {
      assert r in a <==> r in multiset(a);
      assert r in b <==> r in multiset(b);
    }
  }

  // ------------------------------------------------- matching and precedence, field by field

  /** What a rule can constrain. The executable is always constrained. */
  datatype Field = ExecutableField | ProtocolField | DirectionField | AddressField | HostnameField | PortField

  predicate Asks(r: Rule, f: Field) {
    match f
    case ExecutableField => true
    case ProtocolField => r.protocol != None
    case DirectionField => r.direction != None
    case AddressField => r.address != None
    case HostnameField => r.hostname != None
    case PortField => r.port != None
  }

  /** The connection has the very value that the rule names. */
  predicate Has(c: Connection, r: Rule, f: Field) {
    match f
    case ExecutableField => c.executable == r.executable
    case ProtocolField => r.protocol == Some(c.protocol)
    case DirectionField => r.direction == Some(c.direction)
    case AddressField => r.address == Some(c.address)
    case HostnameField => c.hostname != None && c.hostname == r.hostname
    case PortField => r.port == Some(c.port)
  }

  predicate Meets(c: Connection, r: Rule) {
    forall f :: Asks(r, f) ==> Has(c, r, f)
  }

  function Asked(r: Rule): set<Field> {
    set f: Field | Asks(r, f)
  }

  /** The connection meets `r`, and every other rule it meets asks for less, or for as much under a smaller id. */
  ghost predicate Decisive(rules: seq<Rule>, c: Connection, r: Rule) {
    && r in rules && Meets(c, r)
    && forall o :: o in rules && Meets(c, o) && o != r ==>
         |Asked(o)| < |Asked(r)| || (|Asked(o)| == |Asked(r)| && o.id < r.id)
  }

  lemma MeetsIsMatches(c: Connection, r: Rule)
    ensures Meets(c, r) <==> Matches(r, c)
  {
    if Matches(r, c) {
      forall f | Asks(r, f) ensures Has(c, r, f) {
        match f {
          case ExecutableField =>
          case ProtocolField =>
          case DirectionField =>
          case AddressField =>
          case HostnameField =>
          case PortField =>
        }
      }
    }
    if Meets(c, r) {
      assert Asks(r, ExecutableField) && Has(c, r, ExecutableField);
      assert Asks(r, ProtocolField) ==> Has(c, r, ProtocolField);
      assert Asks(r, DirectionField) ==> Has(c, r, DirectionField);
      assert Asks(r, AddressField) ==> Has(c, r, AddressField);
      assert Asks(r, HostnameField) ==> Has(c, r, HostnameField);
      assert Asks(r, PortField) ==> Has(c, r, PortField);
    }
  }

  function Part(f: Field, present: bool): set<Field> { if present then {f} else {} }

  lemma OneMoreField(s: set<Field>, f: Field, present: bool)
    requires f !in s
    ensures |s + Part(f, present)| == |s| + One(present)
    ensures forall g :: g in s + Part(f, present) <==> g in s || (g == f && present)
  {
    assert s + {} == s;
  }

  lemma AskedParts(r: Rule)
    ensures forall f :: f in Asked(r) <==>
              || f == ExecutableField
              || (f == ProtocolField && r.protocol.Some?) || (f == DirectionField && r.direction.Some?)
              || (f == AddressField && r.address.Some?) || (f == HostnameField && r.hostname.Some?)
              || (f == PortField && r.port.Some?)
  {
  }

  /** The two fields about the connection itself, and the executable. */
  function NearParts(r: Rule): set<Field> {
    {ExecutableField} + Part(ProtocolField, r.protocol.Some?) + Part(DirectionField, r.direction.Some?)
  }

  lemma NearSize(r: Rule)
    ensures |NearParts(r)| == 1 + One(r.protocol.Some?) + One(r.direction.Some?)
    ensures forall f :: f in NearParts(r) <==>
              || f == ExecutableField
              || (f == ProtocolField && r.protocol.Some?) || (f == DirectionField && r.direction.Some?)
  {
    hide Part, One;
    OneMoreField({ExecutableField}, ProtocolField, r.protocol.Some?);
    OneMoreField({ExecutableField} + Part(ProtocolField, r.protocol.Some?), DirectionField, r.direction.Some?);
  }

  lemma AskedSize(r: Rule)
    ensures |Asked(r)| == 1 + Constraints(r)
  {
    hide Asked, Part, One, NearParts;
    NearSize(r);
    var s2 := NearParts(r);
    OneMoreField(s2, AddressField, r.address.Some?);
    var s3 := s2 + Part(AddressField, r.address.Some?);
    OneMoreField(s3, HostnameField, r.hostname.Some?);
    var s4 := s3 + Part(HostnameField, r.hostname.Some?);
    OneMoreField(s4, PortField, r.port.Some?);
    AskedParts(r);
    assert Asked(r) == s4 + Part(PortField, r.port.Some?);
  }

  lemma DecisiveIsTop(rules: seq<Rule>, c: Connection, r: Rule)
    requires UniqueIds(rules)
    ensures Decisive(rules, c, r) <==> Top(rules, c, r)
  {
    forall o ensures (Meets(c, o) <==> Matches(o, c)) && |Asked(o)| == 1 + Constraints(o) {
      MeetsIsMatches(c, o);
      AskedSize(o);
    }
    hide Meets, Matches, Asked, Constraints;
    if Top(rules, c, r) {
      forall o | o in rules && Meets(c, o) && o != r ensures Outranks(r, o) {
        assert o.id != r.id;
      }
    }
  }

  /**
   The verdict in terms of the fields alone: with no rule met it is Prompt; otherwise exactly one rule is decisive, and
   its verdict is the verdict.
   */
  lemma VerdictByFields(rules: seq<Rule>, c: Connection)
    requires UniqueIds(rules)
    ensures (forall r :: r in rules ==> !Meets(c, r)) ==> VerdictFor(rules, c).Prompt?
    ensures (exists r :: r in rules && Meets(c, r)) ==> exists r :: Decisive(rules, c, r)
    ensures forall r :: Decisive(rules, c, r) ==> VerdictFor(rules, c) == r.verdict
  {
    BestIsTop(rules, c);
    forall r ensures Meets(c, r) <==> Matches(r, c) {
      MeetsIsMatches(c, r);
    }
    forall r ensures Decisive(rules, c, r) <==> Top(rules, c, r) {
      DecisiveIsTop(rules, c, r);
    }
    hide Meets, Matches, Decisive, Top;
    forall r | Decisive(rules, c, r) ensures VerdictFor(rules, c) == r.verdict {
      TopDecides(rules, c, r);
    }
  }

  /** A rule that names another value for any one field changes no verdict. */
  lemma OtherValueHasNoEffect(rules: seq<Rule>, r: Rule, c: Connection)
    requires
      || r.executable != c.executable
      || (r.protocol.Some? && r.protocol.value != c.protocol)
      || (r.direction.Some? && r.direction.value != c.direction)
      || (r.address.Some? && r.address.value != c.address)
      || (r.hostname.Some? && c.hostname != Some(r.hostname.value))
      || (r.port.Some? && r.port.value != c.port)
    ensures VerdictFor(rules + [r], c) == VerdictFor(rules, c)
  {
    assert (rules + [r])[..|rules|] == rules;
  }

  /** A lone rule decides every connection that has the values it names. */
  lemma LoneRuleDecides(r: Rule, c: Connection)
    requires r.executable == c.executable
    requires r.protocol.Some? ==> r.protocol.value == c.protocol
    requires r.direction.Some? ==> r.direction.value == c.direction
    requires r.address.Some? ==> r.address.value == c.address
    requires r.hostname.Some? ==> c.hostname == Some(r.hostname.value)
    requires r.port.Some? ==> r.port.value == c.port
    ensures VerdictFor([r], c) == r.verdict
  {
    assert [r][..0] == [] && Best([], c) == None;
  }

  // ------------------------------------------------------------- editing

  function Inserted(rules: seq<Rule>, r: Rule): Result<seq<Rule>, RuleError> {
    if !Absolute(r.executable) then Err(ExecutableMustBeAbsolute)
    else if exists e :: e in rules && e.id == r.id then Err(DuplicateId(r.id))
    else Ok(rules + [r])
  }

  function Without(rules: seq<Rule>, id: nat): seq<Rule> {
    if rules == [] then []
    else if rules[0].id == id then Without(rules[1..], id)
    else [rules[0]] + Without(rules[1..], id)
  }

  lemma {:induction false} WithoutIsExact(rules: seq<Rule>, id: nat)
    ensures forall r :: r in Without(rules, id) <==> r in rules && r.id != id
    ensures |Without(rules, id)| == |rules| <==> forall r :: r in rules ==> r.id != id
    ensures |Without(rules, id)| <= |rules|
  {
    if rules != [] {
      WithoutIsExact(rules[1..], id);
      assert rules == [rules[0]] + rules[1..];
    }
  }

  lemma {:induction false} WithoutKeepsWellFormed(rules: seq<Rule>, id: nat)
    requires WellFormed(rules)
    ensures WellFormed(Without(rules, id))
  {
    if rules != [] {
      WithoutKeepsWellFormed(rules[1..], id);
      WithoutIsExact(rules[1..], id);
      assert forall r :: r in rules[1..] ==> r.id != rules[0].id;
    }
  }

  lemma {:induction false} WithoutAbsent(rules: seq<Rule>, id: nat)
    requires forall r :: r in rules ==> r.id != id
    ensures Without(rules, id) == rules
  {
    if rules != [] {
      WithoutAbsent(rules[1..], id);
    }
  }

  lemma {:induction false} WithoutAppend(a: seq<Rule>, b: seq<Rule>, id: nat)
    ensures Without(a + b, id) == Without(a, id) + Without(b, id)
  {
    if a == [] {
      assert a + b == b;
    } else {
      assert (a + b)[1..] == a[1..] + b;
      WithoutAppend(a[1..], b, id);
    }
  }

  /** A rule is refused exactly for an executable that is not absolute, else for an id that is taken. */
  lemma InsertRefuses(rules: seq<Rule>, r: Rule)
    ensures Inserted(rules, r) ==
            if |r.executable| == 0 || r.executable[0] != '/' then Err(ExecutableMustBeAbsolute)
            else if r.id in set o | o in rules :: o.id then Err(DuplicateId(r.id))
            else Ok(rules + [r])
  {
  }

  lemma InsertKeepsWellFormed(rules: seq<Rule>, r: Rule)
    requires WellFormed(rules) && Inserted(rules, r).Ok?
    ensures WellFormed(Inserted(rules, r).value)
  {
  }

  /** A new rule changes the verdict of exactly the connections it matches and wins. */
  lemma InsertIsLocal(rules: seq<Rule>, r: Rule, c: Connection)
    requires WellFormed(rules) && Inserted(rules, r).Ok?
    ensures var after := Inserted(rules, r).value;
            var wins := Matches(r, c) && forall o :: o in rules && Matches(o, c) ==> Outranks(r, o);
            VerdictFor(after, c) == if wins then r.verdict else VerdictFor(rules, c)
  {
    var after := Inserted(rules, r).value;
    assert after[..|after| - 1] == rules;
    BestIsTop(rules, c);
    if Best(rules, c).Some? {
      var b := Best(rules, c).value;
      assert b.id != r.id;
      if Outranks(r, b) {
        forall o | o in rules && Matches(o, c) ensures Outranks(r, o) {
          assert !Outranks(o, b);
        }
      }
    }
  }

  /** Removing the rule just inserted gives back the very same set, hence every verdict. */
  lemma InsertThenRemove(rules: seq<Rule>, r: Rule)
    requires Inserted(rules, r).Ok?
    ensures Without(Inserted(rules, r).value, r.id) == rules
  {
    WithoutAppend(rules, [r], r.id);
    WithoutAbsent(rules, r.id);
  }

  /** `RuleSet`: the rule vector edited in place. */
  class RuleSet {
    var rules: seq<Rule>

    ghost predicate Valid() reads this { WellFormed(rules) }

    constructor ()
      ensures Valid() && rules == []
    {
      rules := [];
    }

    method Insert(r: Rule) returns (e: Option<RuleError>)
      requires Valid()
      modifies this
      ensures Valid()
      ensures match Inserted(old(rules), r)
              case Ok(after) => e == None && rules == after
              case Err(why) => e == Some(why) && rules == old(rules)
    {
      if r.executable == "" || r.executable[0] != '/' {
        return Some(ExecutableMustBeAbsolute);
      }
      var i := 0;
      while i < |rules|
        invariant 0 <= i <= |rules| && rules == old(rules)
        invariant forall k :: 0 <= k < i ==> rules[k].id != r.id
      {
        if rules[i].id == r.id {
          assert rules[i] in rules;
          return Some(DuplicateId(r.id));
        }
        i := i + 1;
      }
      rules := rules + [r];
      e := None;
    }

    method Remove(id: nat) returns (removed: bool)
      requires Valid()
      modifies this
      ensures Valid() && rules == Without(old(rules), id)
      ensures removed <==> exists r :: r in old(rules) && r.id == id
    {
      WithoutIsExact(rules, id);
      WithoutKeepsWellFormed(rules, id);
      var before := |rules|;
      rules := Without(rules, id);
      removed := before != |rules|;
    }
  }

  // ------------------------------------------------------------- the store

  const SCHEMA_VERSION: nat := 1

  datatype Document = Document(schemaVersion: nat, rules: seq<Rule>)
  datatype LoadError = UnsupportedSchema(version: nat) | InvalidRule(error: RuleError)

  /** `RulesStore::save` up to the TOML text: every rule is written, whatever its scope. */
  function Saved(rules: seq<Rule>): Document {
    Document(SCHEMA_VERSION, rules)
  }

  /**
   `RulesStore::load` on the file's document (`None` when there is no file): it accepts
   exactly the well-formed documents, and what it accepts it keeps unchanged.
   */
  method Load(file: Option<Document>) returns (r: Result<RuleSet, LoadError>)
    ensures r.Ok? <==> file.None? || (file.value.schemaVersion == 1 && WellFormed(file.value.rules))
    ensures r.Ok? ==> fresh(r.value) && r.value.Valid()
    ensures r.Ok? ==> r.value.rules == if file.None? then [] else file.value.rules
    ensures r.Err? && file.value.schemaVersion != 1 ==>
              r.error == UnsupportedSchema(file.value.schemaVersion)
  {
    var set' := new RuleSet();
    if file.None? {
      return Ok(set');
    }
    var document := file.value;
    if document.schemaVersion != SCHEMA_VERSION {
      return Err(UnsupportedSchema(document.schemaVersion));
    }
    var i := 0;
    while i < |document.rules|
      invariant 0 <= i <= |document.rules|
      invariant fresh(set') && set'.Valid() && set'.rules == document.rules[..i]
    {
      var e := set'.Insert(document.rules[i]);
      if e.Some? {
        assert Inserted(document.rules[..i], document.rules[i]).Err?;
        RejectedPrefix(document.rules, i);
        return Err(InvalidRule(e.value));
      }
      i := i + 1;
    }
    assert document.rules[..i] == document.rules;
    r := Ok(set');
  }

  lemma RejectedPrefix(rules: seq<Rule>, i: nat)
    requires i < |rules| && Inserted(rules[..i], rules[i]).Err?
    ensures !WellFormed(rules)
  {
    if Absolute(rules[i].executable) {
      var e :| e in rules[..i] && e.id == rules[i].id;
      var k :| 0 <= k < i && rules[k] == e;
    } else {
      assert rules[i] in rules;
    }
  }

  /** Saving a reachable rule set and loading it again gives the same rules. */
  method SaveThenLoad(set': RuleSet) returns (r: Result<RuleSet, LoadError>)
    requires set'.Valid()
    ensures r.Ok? && r.value.rules == set'.rules
  {
    r := Load(Some(Saved(set'.rules)));
  }
}
