/**
 * The audiences a profile class declares through its attributes, and their
 * reconciliation against the audience store: an audience is created when
 * missing, its group operation and description are written when they
 * differ, its rules are compared as a set and rebuilt when anything changed,
 * and only a changed audience is committed and compiled.
 */
module Audiences {
  import opened Wrappers
  import opened Dicts
  import opened ProfileAttributes

  /** A rule of an audience: property, "=" or "<>", value. */
  datatype Rule = Rule(left: string, op: string, right: string)

  /**
   * AudienceWrapper: the audience as the attributes describe it. Rules is
   * null (None) when the first attribute naming the audience does not update
   * rules; a null description is filled in with the name when reconciled.
   */
  datatype AudienceSpec = AudienceSpec(name: string, description: Option<string>, operator: string, rules: Option<seq<Rule>>)

  /**
   * A property of a profile class as the spec building sees it: the name of
   * its ProfilePropertyStorageAttribute, if it has one, and its audience
   * attributes in declaration order.
   */
  datatype ProfileProperty = ProfileProperty(storageName: Option<string>, audiences: seq<AudienceAttribute>)

  // ---------------------------------------------------------------------------
  // Building the specs

  /** The rule an attribute with a filter adds: "=" for Equal, "<>" otherwise. */
  function RuleOf(propname: string, aa: AudienceAttribute): (r: Rule)
    ensures r.left == propname && r.right == aa.filter
    ensures r.op == "=" <==> aa.ruleType == Equal
    ensures r.op == "=" || r.op == "<>"
  {
    Rule(propname, if aa.ruleType == Equal then "=" else "<>", aa.filter)
  }

  /** The spec the first attribute naming an audience creates. */
  function NewSpec(aa: AudienceAttribute): (s: AudienceSpec)
    ensures s.name == aa.audienceName && s.description == aa.description && s.operator == aa.multiRuleOperator
    ensures s.rules == if aa.updateRules then Some([]) else None
  {
    AudienceSpec(aa.audienceName, aa.description, aa.multiRuleOperator, if aa.updateRules then Some([]) else None)
  }

  /** The (storage name, attribute) pairs of one property; none without a storage attribute. */
  function PairsOf(p: ProfileProperty): (r: seq<(string, AudienceAttribute)>)
    ensures p.storageName.None? ==> r == []
    ensures p.storageName.Some? ==> |r| == |p.audiences|
    ensures p.storageName.Some? ==> forall i :: 0 <= i < |r| ==> r[i] == (p.storageName.value, p.audiences[i])
  {
    match p.storageName
    case None => []
    case Some(n) => seq(|p.audiences|, i requires 0 <= i < |p.audiences| => (n, p.audiences[i]))
  }

  /** The pairs of all properties, in the order the nested loops visit them. */
  function Pairs(props: seq<ProfileProperty>): seq<(string, AudienceAttribute)> {
    if |props| == 0 then [] else Pairs(props[..|props| - 1]) + PairsOf(props[|props| - 1])
  }

  /**
   * One attribute's step of the spec building, as the source writes it:
   * adding a rule to a spec whose rule list is null throws.
   */
  function AddAttributeAsWritten(d: Dict<AudienceSpec>, propname: string, aa: AudienceAttribute): Result<Dict<AudienceSpec>, string> {
    var d1 := if ContainsKey(d, aa.audienceName) then d else Set(d, aa.audienceName, NewSpec(aa));
    var s := Get(d1, aa.audienceName).value;
    if aa.filter == "" then Success(d1)
    else if s.rules.None? then Failure("Object reference not set to an instance of an object.")
    else Success(Set(d1, aa.audienceName, s.(rules := Some(s.rules.value + [RuleOf(propname, aa)]))))
  }

  function BuildSpecsAsWritten(pairs: seq<(string, AudienceAttribute)>): Result<Dict<AudienceSpec>, string> {
    if |pairs| == 0 then Success([])
    else
      var d :- BuildSpecsAsWritten(pairs[..|pairs| - 1]);
      var (propname, aa) := pairs[|pairs| - 1];
      AddAttributeAsWritten(d, propname, aa)
  }

  /**
   * One attribute's step of the spec building: the first attribute naming an
   * audience creates its spec, and an attribute with a filter adds its rule
   * unless the spec keeps no rules.
   */
  function AddAttribute(d: Dict<AudienceSpec>, propname: string, aa: AudienceAttribute): Dict<AudienceSpec> {
    var d1 := if ContainsKey(d, aa.audienceName) then d else Set(d, aa.audienceName, NewSpec(aa));
    var s := Get(d1, aa.audienceName).value;
    if aa.filter != "" && s.rules.Some? then Set(d1, aa.audienceName, s.(rules := Some(s.rules.value + [RuleOf(propname, aa)])))
    else d1
  }

  function BuildSpecs(pairs: seq<(string, AudienceAttribute)>): Dict<AudienceSpec> {
    if |pairs| == 0 then []
    else
      var (propname, aa) := pairs[|pairs| - 1];
      AddAttribute(BuildSpecs(pairs[..|pairs| - 1]), propname, aa)
  }

  /** The first attribute naming audience n. */
  function FirstFor(pairs: seq<(string, AudienceAttribute)>, n: string): (r: Option<AudienceAttribute>)
    ensures r.None? <==> forall i :: 0 <= i < |pairs| ==> pairs[i].1.audienceName != n
    ensures r.Some? ==> r.value.audienceName == n
    ensures r.Some? ==> exists i :: 0 <= i < |pairs| && pairs[i].1 == r.value && (forall j :: 0 <= j < i ==> pairs[j].1.audienceName != n)
  {
    if |pairs| == 0 then None
    else
      var r := FirstFor(pairs[..|pairs| - 1], n);
      if r.Some? then r
      else if pairs[|pairs| - 1].1.audienceName == n then Some(pairs[|pairs| - 1].1)
      else None
  }

  /** The rules of all attributes naming audience n that carry a filter, in order. */
  function RulesFor(pairs: seq<(string, AudienceAttribute)>, n: string): (r: seq<Rule>)
    ensures |r| <= |pairs|
  {
    if |pairs| == 0 then []
    else
      var (propname, aa) := pairs[|pairs| - 1];
      RulesFor(pairs[..|pairs| - 1], n) + (if aa.audienceName == n && aa.filter != "" then [RuleOf(propname, aa)] else [])
  }

  /** What the spec of audience n should be: named, described and joined as its first attribute says, with all its rules. */
  function Expected(pairs: seq<(string, AudienceAttribute)>, n: string): Option<AudienceSpec> {
    match FirstFor(pairs, n)
    case None => None
    case Some(a) => Some(AudienceSpec(n, a.description, a.multiRuleOperator, if a.updateRules then Some(RulesFor(pairs, n)) else None))
  }

  lemma {:induction false} RulesForNone(pairs: seq<(string, AudienceAttribute)>, n: string)
    requires FirstFor(pairs, n).None?
    ensures RulesFor(pairs, n) == []
  {
    if |pairs| > 0 {
      RulesForNone(pairs[..|pairs| - 1], n);
    }
  }

  /** BuildSpecs of one more pair is one more AddAttribute. */
  lemma BuildSpecsSnoc(pairs: seq<(string, AudienceAttribute)>, propname: string, aa: AudienceAttribute)
    ensures BuildSpecs(pairs + [(propname, aa)]) == AddAttribute(BuildSpecs(pairs), propname, aa)
  {
    assert (pairs + [(propname, aa)])[..|pairs|] == pairs;
  }

  /** AddAttribute touches only the attribute's audience, as described. */
  lemma AddAttributeGet(d: Dict<AudienceSpec>, propname: string, aa: AudienceAttribute)
    ensures UniqueKeys(d) ==> UniqueKeys(AddAttribute(d, propname, aa))
    ensures forall n :: n != aa.audienceName ==> Get(AddAttribute(d, propname, aa), n) == Get(d, n)
    ensures var s := Get(d, aa.audienceName).GetOr(NewSpec(aa));
      Get(AddAttribute(d, propname, aa), aa.audienceName)
        == Some(if aa.filter != "" && s.rules.Some? then s.(rules := Some(s.rules.value + [RuleOf(propname, aa)])) else s)
  {
  }

  /**
   * The specs hold one entry per audience name found on a stored property,
   * each as Expected describes it.
   */
  lemma {:induction false} BuildSpecsSpec(pairs: seq<(string, AudienceAttribute)>)
    ensures UniqueKeys(BuildSpecs(pairs))
    ensures forall n :: Get(BuildSpecs(pairs), n) == Expected(pairs, n)
  {
    if |pairs| > 0 {
      var p := pairs[..|pairs| - 1];
      var (propname, aa) := pairs[|pairs| - 1];
      assert pairs == p + [(propname, aa)];
      BuildSpecsSpec(p);
      BuildSpecsSnoc(p, propname, aa);
      AddAttributeGet(BuildSpecs(p), propname, aa);
      forall n ensures Get(BuildSpecs(pairs), n) == Expected(pairs, n) {
        BuildSpecsStep(p, propname, aa, n);
      }
    }
  }

  /** One more attribute keeps the spec of audience n as Expected describes it. */
  lemma BuildSpecsStep(p: seq<(string, AudienceAttribute)>, propname: string, aa: AudienceAttribute, n: string)
    requires Get(BuildSpecs(p), n) == Expected(p, n)
    ensures Get(BuildSpecs(p + [(propname, aa)]), n) == Expected(p + [(propname, aa)], n)
  {
    var pairs := p + [(propname, aa)];
    assert pairs[..|pairs| - 1] == p;
    BuildSpecsSnoc(p, propname, aa);
    var d := BuildSpecs(p);
    AddAttributeGet(d, propname, aa);
    var name := aa.audienceName;
    var extra := if aa.filter != "" then [RuleOf(propname, aa)] else [];
    if n != name {
      assert RulesFor(pairs, n) == RulesFor(p, n);
      assert FirstFor(pairs, n) == FirstFor(p, n);
      assert Get(BuildSpecs(pairs), n) == Get(d, n);
    } else {
      assert RulesFor(pairs, name) == RulesFor(p, name) + extra;
      var a: AudienceAttribute;
      if FirstFor(p, name).None? {
        RulesForNone(p, name);
        assert FirstFor(pairs, name) == Some(aa);
        assert Get(d, name).None?;
        a := aa;
        assert RulesFor(pairs, name) == extra;
      } else {
        a := FirstFor(p, name).value;
        assert FirstFor(pairs, name) == Some(a);
      }
      var s := Get(d, name).GetOr(NewSpec(aa));
      assert s == AudienceSpec(name, a.description, a.multiRuleOperator, if a.updateRules then Some(RulesFor(p, name)) else None);
      if aa.filter == "" {
        assert RulesFor(p, name) + extra == RulesFor(p, name);
      }
    }
  }

  /** Every spec is stored under its own name. */
  lemma SpecsKeyedByName(pairs: seq<(string, AudienceAttribute)>)
    ensures forall i :: 0 <= i < |BuildSpecs(pairs)| ==> BuildSpecs(pairs)[i].1.name == BuildSpecs(pairs)[i].0
  {
    var d := BuildSpecs(pairs);
    BuildSpecsSpec(pairs);
    forall i | 0 <= i < |d| ensures d[i].1.name == d[i].0 {
      GetInUnique(d, i);
      assert Get(d, d[i].0) == Expected(pairs, d[i].0);
      assert FirstFor(pairs, d[i].0).Some?;
      assert Expected(pairs, d[i].0).value.name == d[i].0;
    }
  }

  /** Where the spec building as written succeeds, it agrees with BuildSpecs. */
  lemma {:induction false} AsWrittenAgrees(pairs: seq<(string, AudienceAttribute)>)
    ensures BuildSpecsAsWritten(pairs).Success? ==> BuildSpecsAsWritten(pairs).value == BuildSpecs(pairs)
  {
    if |pairs| > 0 {
      AsWrittenAgrees(pairs[..|pairs| - 1]);
    }
  }

  /** Once the building as written has thrown, later attributes change nothing: the exception ends it. */
  lemma {:induction false} FailureSticks(a: seq<(string, AudienceAttribute)>, c: seq<(string, AudienceAttribute)>)
    requires a <= c && BuildSpecsAsWritten(a).Failure?
    ensures BuildSpecsAsWritten(c) == BuildSpecsAsWritten(a)
    decreases |c|
  {
    if |c| > |a| {
      assert a <= c[..|c| - 1];
      FailureSticks(a, c[..|c| - 1]);
      assert BuildSpecsAsWritten(c[..|c| - 1]).Failure?;
    } else {
      assert c == a;
    }
  }

  /** The pairs of the first k properties come first among the pairs of all of them. */
  lemma {:induction false} PairsPrefix(props: seq<ProfileProperty>, k: nat)
    requires k <= |props|
    ensures Pairs(props[..k]) <= Pairs(props)
    decreases |props|
  {
    if k < |props| {
      var init := props[..|props| - 1];
      assert init[..k] == props[..k];
      PairsPrefix(init, k);
    } else {
      assert props[..k] == props;
    }
  }

  /** The building as written, one pair more. */
  lemma AsWrittenSnoc(pairs: seq<(string, AudienceAttribute)>, propname: string, aa: AudienceAttribute)
    requires BuildSpecsAsWritten(pairs).Success?
    ensures BuildSpecsAsWritten(pairs + [(propname, aa)]) == AddAttributeAsWritten(BuildSpecsAsWritten(pairs).value, propname, aa)
  {
    assert (pairs + [(propname, aa)])[..|pairs|] == pairs;
  }

  /** One more pair of a prefix: the build as written takes one more step, and a failure there is the end result. */
  lemma AsWrittenPrefixStep(base: seq<(string, AudienceAttribute)>, mine: seq<(string, AudienceAttribute)>, j: nat)
    requires j < |mine| && BuildSpecsAsWritten(base + mine[..j]).Success?
    ensures var step := AddAttributeAsWritten(BuildSpecsAsWritten(base + mine[..j]).value, mine[j].0, mine[j].1);
      && BuildSpecsAsWritten(base + mine[..j + 1]) == step
      && (step.Failure? ==> BuildSpecsAsWritten(base + mine) == step)
  {
    var a := base + mine[..j];
    var b := base + mine[..j + 1];
    SnocPrefix(base, mine, j);
    AsWrittenSnoc(a, mine[j].0, mine[j].1);
    var step := AddAttributeAsWritten(BuildSpecsAsWritten(a).value, mine[j].0, mine[j].1);
    if step.Failure? {
      ConcatPrefix(base, mine, j + 1);
      FailureSticks(b, base + mine);
    }
  }

  lemma SnocPrefix<T>(a: seq<T>, b: seq<T>, j: nat)
    requires j < |b|
    ensures a + b[..j + 1] == (a + b[..j]) + [b[j]]
  {
    assert b[..j + 1] == b[..j] + [b[j]];
  }

  lemma ConcatPrefix<T>(a: seq<T>, b: seq<T>, k: nat)
    requires k <= |b|
    ensures a + b[..k] <= a + b
  {
    assert (a + b)[..|a| + k] == a + b[..k];
  }

  /**
   * As written, an audience whose first attribute does not update rules
   * makes any later attribute with a filter throw, and with it the whole
   * spec building; BuildSpecs ignores that filter instead.
   */
  lemma RulesOffThenFilterThrows()
    ensures var first := NewAudience("Sales").(updateRules := false);
      var second := NewFilteredAudience("Sales", Equal, "Sales");
      var pairs := [("Department", first), ("Department", second)];
      && BuildSpecsAsWritten(pairs).Failure?
      && Get(BuildSpecs(pairs), "Sales") == Some(AudienceSpec("Sales", None, "AND", None))
  {
    var first := NewAudience("Sales").(updateRules := false);
    var second := NewFilteredAudience("Sales", Equal, "Sales");
    var pairs := [("Department", first), ("Department", second)];
    assert pairs[..1] == [("Department", first)];
    assert pairs[..1][..0] == [];
    var d1 := Set([], "Sales", NewSpec(first));
    assert BuildSpecsAsWritten(pairs[..1]) == AddAttributeAsWritten([], "Department", first) == Success(d1);
    assert Get(d1, "Sales") == Some(NewSpec(first));
    assert AddAttributeAsWritten(d1, "Department", second).Failure?;
    BuildSpecsSpec(pairs);
    assert FirstFor(pairs, "Sales") == Some(first) by {
      assert FirstFor(pairs[..1], "Sales") == Some(first);
    }
  }

  // ---------------------------------------------------------------------------
  // The store

  /** A rule component of a stored audience; a separator has no left or right content. */
  datatype Token = Token(leftContent: Option<string>, op: string, rightContent: Option<string>)

  /** An audience as the store holds it. */
  datatype StoredAudience = StoredAudience(description: Option<string>, groupOperation: int, rules: Option<seq<Token>>)

  /** The group operation of a created audience before it is set. */
  const UnsetGroupOperation: int := 0

  /** 1 (OR) for "OR", 2 (AND) for anything else. */
  function GroupOperation(op: string): (g: int)
    ensures g == 1 <==> op == "OR"
    ensures g == 1 || g == 2
  {
    if op == "OR" then 1 else 2
  }

  function RuleToken(r: Rule): (t: Token)
    ensures t.leftContent == Some(r.left) && t.op == r.op && t.rightContent == Some(r.right)
  {
    Token(Some(r.left), r.op, Some(r.right))
  }

  function RuleTokens(rules: seq<Rule>): (r: seq<Token>)
    ensures |r| == |rules|
    ensures forall i :: 0 <= i < |rules| ==> r[i] == RuleToken(rules[i])
  {
    seq(|rules|, i requires 0 <= i < |rules| => RuleToken(rules[i]))
  }

  /** A stored rule no spec rule matches on (left, operator, right); separators are not rules. */
  predicate Removed(rules: seq<Rule>, tokens: seq<Token>) {
    exists t :: t in tokens && t.leftContent.Some? && t !in RuleTokens(rules)
  }

  /** A spec rule no stored rule matches. */
  predicate Missing(rules: seq<Rule>, tokens: seq<Token>) {
    exists r :: r in rules && RuleToken(r) !in tokens
  }

  /** The rule list r1, op, r2, op, ..., rn the store gets when it is rebuilt. */
  function Interleave(rules: seq<Rule>, op: string): (r: seq<Token>)
    ensures |rules| == 0 ==> r == []
    ensures |rules| > 0 ==> |r| == 2 * |rules| - 1
    ensures forall j :: 0 <= j < |r| && j % 2 == 0 ==> r[j] == RuleToken(rules[j / 2])
    ensures forall j :: 0 <= j < |r| && j % 2 == 1 ==> r[j] == Token(None, op, None)
  {
    if |rules| == 0 then []
    else seq(2 * |rules| - 1, j requires 0 <= j < 2 * |rules| - 1 => if j % 2 == 0 then RuleToken(rules[j / 2]) else Token(None, op, None))
  }

  /** The rebuilt list differs from the spec's rules in neither direction. */
  lemma InterleaveMatches(rules: seq<Rule>, op: string)
    ensures !Removed(rules, Interleave(rules, op)) && !Missing(rules, Interleave(rules, op))
  {
    var tokens := Interleave(rules, op);
    forall t | t in tokens && t.leftContent.Some? ensures t in RuleTokens(rules) {
      var j :| 0 <= j < |tokens| && tokens[j] == t;
      assert j % 2 == 0;
      assert RuleTokens(rules)[j / 2] == t;
    }
    forall r | r in rules ensures RuleToken(r) in tokens {
      var i :| 0 <= i < |rules| && rules[i] == r;
      assert tokens[2 * i] == RuleToken(r);
    }
  }

  /**
   * The reconciliation of one spec with the audience the store holds under its
   * name, if any: whether it changed, and the audience afterwards.
   */
  function Reconcile(existing: Option<StoredAudience>, spec: AudienceSpec, updateRules: bool): (bool, StoredAudience) {
    var description := spec.description.GetOr(spec.name);
    var ea := existing.GetOr(StoredAudience(Some(description), UnsetGroupOperation, None));
    var gop := GroupOperation(spec.operator);
    var changed := existing.None? || ea.groupOperation != gop || ea.description != Some(description);
    var ea := ea.(groupOperation := gop, description := Some(description));
    if updateRules && spec.rules.Some? && |spec.rules.value| > 0 then
      var rules := spec.rules.value;
      var tokens := ea.rules.GetOr([]);
      var changed := changed || Removed(rules, tokens) || Missing(rules, tokens);
      (changed, ea.(rules := Some(if changed then Interleave(rules, spec.operator) else tokens)))
    else (changed, ea)
  }

  /** The audience the store holds under a name. */
  function Lookup(store: map<string, StoredAudience>, name: string): Option<StoredAudience> {
    if name in store then Some(store[name]) else None
  }

  /** A spec the store already agrees with. */
  predicate Settled(store: map<string, StoredAudience>, spec: AudienceSpec, updateRules: bool) {
    !Reconcile(Lookup(store, spec.name), spec, updateRules).0
  }

  /**
   * What a reconciliation changes the audience to, it then agrees with: a
   * changed audience stores the spec's description, operation and rules.
   */
  lemma ReconcileSettles(existing: Option<StoredAudience>, spec: AudienceSpec, updateRules: bool)
    ensures var (changed, ea) := Reconcile(existing, spec, updateRules);
      changed ==> !Reconcile(Some(ea), spec, updateRules).0
  {
    if updateRules && spec.rules.Some? && |spec.rules.value| > 0 {
      InterleaveMatches(spec.rules.value, spec.operator);
    }
  }

  /** The store and the committed names after reconciling the specs in order. */
  function ReconcileAll(store: map<string, StoredAudience>, committed: seq<string>, specs: seq<AudienceSpec>, updateRules: bool)
    : (map<string, StoredAudience>, seq<string>)
    decreases |specs|
  {
    if |specs| == 0 then (store, committed)
    else
      var s := specs[0];
      var (changed, ea) := Reconcile(Lookup(store, s.name), s, updateRules);
      if changed then ReconcileAll(store[s.name := ea], committed + [s.name], specs[1..], updateRules)
      else ReconcileAll(store, committed, specs[1..], updateRules)
  }

  predicate DistinctNames(specs: seq<AudienceSpec>) {
    forall i, j :: 0 <= i < j < |specs| ==> specs[i].name != specs[j].name
  }

  /** Reconciling specs the store agrees with commits nothing. */
  lemma {:induction false} SettledCommitsNothing(store: map<string, StoredAudience>, committed: seq<string>, specs: seq<AudienceSpec>, updateRules: bool)
    requires forall i :: 0 <= i < |specs| ==> Settled(store, specs[i], updateRules)
    ensures ReconcileAll(store, committed, specs, updateRules) == (store, committed)
    decreases |specs|
  {
    if |specs| > 0 {
      assert Settled(store, specs[0], updateRules);
      SettledCommitsNothing(store, committed, specs[1..], updateRules);
    }
  }

  /** Reconciling leaves the entries of names no spec carries alone. */
  lemma {:induction false} ReconcileAllOthers(store: map<string, StoredAudience>, committed: seq<string>, specs: seq<AudienceSpec>, updateRules: bool, n: string)
    requires forall i :: 0 <= i < |specs| ==> specs[i].name != n
    ensures Lookup(ReconcileAll(store, committed, specs, updateRules).0, n) == Lookup(store, n)
    decreases |specs|
  {
    if |specs| > 0 {
      var s := specs[0];
      var (changed, ea) := Reconcile(Lookup(store, s.name), s, updateRules);
      var next := if changed then store[s.name := ea] else store;
      ReconcileAllOthers(next, if changed then committed + [s.name] else committed, specs[1..], updateRules, n);
    }
  }

  /** After a reconciliation, the store agrees with every spec. */
  lemma {:induction false} ReconcileAllSettles(store: map<string, StoredAudience>, committed: seq<string>, specs: seq<AudienceSpec>, updateRules: bool)
    requires DistinctNames(specs)
    ensures forall i :: 0 <= i < |specs| ==> Settled(ReconcileAll(store, committed, specs, updateRules).0, specs[i], updateRules)
    decreases |specs|
  {
    if |specs| > 0 {
      var s := specs[0];
      var (changed, ea) := Reconcile(Lookup(store, s.name), s, updateRules);
      var next := if changed then store[s.name := ea] else store;
      var c2 := if changed then committed + [s.name] else committed;
      assert DistinctNames(specs[1..]);
      ReconcileAllSettles(next, c2, specs[1..], updateRules);
      ReconcileAllOthers(next, c2, specs[1..], updateRules, s.name);
      ReconcileSettles(Lookup(store, s.name), s, updateRules);
      var result := ReconcileAll(store, committed, specs, updateRules).0;
      assert result == ReconcileAll(next, c2, specs[1..], updateRules).0;
      forall i | 0 <= i < |specs| ensures Settled(result, specs[i], updateRules) {
        if i > 0 {
          assert specs[i] == specs[1..][i - 1];
        }
      }
    }
  }

  /**
   * A second reconciliation with the same specs and the store the first one
   * left commits and compiles nothing.
   */
  lemma ReconcileTwiceCommitsOnce(store: map<string, StoredAudience>, committed: seq<string>, specs: seq<AudienceSpec>, updateRules: bool)
    requires DistinctNames(specs)
    ensures var (store1, committed1) := ReconcileAll(store, committed, specs, updateRules);
      ReconcileAll(store1, committed1, specs, updateRules) == (store1, committed1)
  {
    ReconcileAllSettles(store, committed, specs, updateRules);
    var (store1, committed1) := ReconcileAll(store, committed, specs, updateRules);
    SettledCommitsNothing(store1, committed1, specs, updateRules);
  }

  /**
   * The lookup of the loop body as written: the audiences are listed once
   * before the loop, so a name not listed then is created again, while a
   * listed audience is the live object every earlier write has changed.
   */
  function LookupListed(store: map<string, StoredAudience>, listed: set<string>, name: string): Option<StoredAudience> {
    if name in listed then Lookup(store, name) else None
  }

  /** ReconcileAll with the lookup of the code as written, against the names listed before the loop. */
  function ReconcileAllListed(store: map<string, StoredAudience>, committed: seq<string>, specs: seq<AudienceSpec>,
                              updateRules: bool, listed: set<string>): (map<string, StoredAudience>, seq<string>)
    decreases |specs|
  {
    if |specs| == 0 then (store, committed)
    else
      var s := specs[0];
      var (changed, ea) := Reconcile(LookupListed(store, listed, s.name), s, updateRules);
      if changed then ReconcileAllListed(store[s.name := ea], committed + [s.name], specs[1..], updateRules, listed)
      else ReconcileAllListed(store, committed, specs[1..], updateRules, listed)
  }

  /**
   * With distinct names the listing taken before the loop is never stale:
   * the code as written reconciles exactly as the live lookup does.
   */
  lemma {:induction false} ListedAgreesWhenDistinct(store: map<string, StoredAudience>, committed: seq<string>, specs: seq<AudienceSpec>,
                                                    updateRules: bool, listed: set<string>)
    requires DistinctNames(specs)
    requires forall i :: 0 <= i < |specs| ==> (specs[i].name in listed <==> specs[i].name in store)
    ensures ReconcileAllListed(store, committed, specs, updateRules, listed) == ReconcileAll(store, committed, specs, updateRules)
    decreases |specs|
  {
    if |specs| > 0 {
      var s := specs[0];
      assert LookupListed(store, listed, s.name) == Lookup(store, s.name);
      var (changed, ea) := Reconcile(Lookup(store, s.name), s, updateRules);
      var next := if changed then store[s.name := ea] else store;
      assert DistinctNames(specs[1..]);
      forall i | 0 <= i < |specs[1..]|
        ensures specs[1..][i].name in listed <==> specs[1..][i].name in next
      {
        assert specs[1..][i] == specs[i + 1];
      }
      ListedAgreesWhenDistinct(next, if changed then committed + [s.name] else committed, specs[1..], updateRules, listed);
    }
  }

  /**
   * Two specs under one name that was not listed before the loop: the code
   * as written creates the audience twice and commits it twice, where the
   * live lookup settles the second spec and commits once.
   */
  lemma RepeatedUnlistedCommitsTwice(store: map<string, StoredAudience>, spec: AudienceSpec, updateRules: bool)
    requires spec.name !in store
    ensures ReconcileAllListed(store, [], [spec, spec], updateRules, store.Keys).1 == [spec.name, spec.name]
    ensures ReconcileAll(store, [], [spec, spec], updateRules).1 == [spec.name]
  {
    var ea := Reconcile(None, spec, updateRules).1;
    var once := store[spec.name := ea];
    assert Reconcile(None, spec, updateRules).0;
    assert [] + [spec.name] == [spec.name] && [spec.name] + [spec.name] == [spec.name, spec.name];
    assert [spec, spec][0] == spec && [spec, spec][1..] == [spec] && [spec][1..] == [];
    assert LookupListed(store, store.Keys, spec.name) == None;
    assert LookupListed(once, store.Keys, spec.name) == None;
    assert ReconcileAllListed(store, [], [spec, spec], updateRules, store.Keys)
        == ReconcileAllListed(once, [spec.name], [spec], updateRules, store.Keys);
    assert ReconcileAllListed(once, [spec.name], [spec], updateRules, store.Keys)
        == ReconcileAllListed(once[spec.name := ea], [spec.name, spec.name], [], updateRules, store.Keys);
    ReconcileSettles(None, spec, updateRules);
    assert Lookup(once, spec.name) == Some(ea);
    assert ReconcileAll(store, [], [spec, spec], updateRules) == ReconcileAll(once, [spec.name], [spec], updateRules);
    assert ReconcileAll(once, [spec.name], [spec], updateRules) == ReconcileAll(once, [spec.name], [], updateRules);
  }

  /** Whether some stored rule matches no spec rule: the first loop of the diff. */
  method FindRemoved(rules: seq<Rule>, tokens: seq<Token>) returns (found: bool)
    ensures found == Removed(rules, tokens)
  {
    var ruleTokens := RuleTokens(rules);
    found := false;
    var i := 0;
    while i < |tokens|
      invariant 0 <= i <= |tokens|
      invariant found <==> exists j :: 0 <= j < i && tokens[j].leftContent.Some? && tokens[j] !in ruleTokens
    {
      if tokens[i].leftContent.Some? && tokens[i] !in ruleTokens {
        found := true;
      }
      i := i + 1;
    }
  }

  /** Whether some spec rule has no stored match: the second loop of the diff. */
  method FindMissing(rules: seq<Rule>, tokens: seq<Token>) returns (found: bool)
    ensures found == Missing(rules, tokens)
  {
    found := false;
    var i := 0;
    while i < |rules|
      invariant 0 <= i <= |rules|
      invariant found <==> exists j :: 0 <= j < i && RuleToken(rules[j]) !in tokens
    {
      if RuleToken(rules[i]) !in tokens {
        found := true;
      }
      i := i + 1;
    }
  }

  /** One more rule adds a separator, unless it is the first, and its own component. */
  lemma InterleaveSnoc(rules: seq<Rule>, op: string)
    requires |rules| > 0
    ensures Interleave(rules, op) == Interleave(rules[..|rules| - 1], op) + (if |rules| > 1 then [Token(None, op, None)] else []) + [RuleToken(rules[|rules| - 1])]
  {
    var n := |rules|;
    var prev := Interleave(rules[..n - 1], op);
    var want := prev + (if n > 1 then [Token(None, op, None)] else []) + [RuleToken(rules[n - 1])];
    var got := Interleave(rules, op);
    assert |got| == |want|;
    forall j | 0 <= j < |got| ensures got[j] == want[j] {
      if j < |prev| {
        assert want[j] == prev[j];
        if j % 2 == 0 {
          assert rules[..n - 1][j / 2] == rules[j / 2];
        }
      }
    }
  }

  /** The rebuild of the rule list: a separator before every rule but the first. */
  method RebuildRules(rules: seq<Rule>, op: string) returns (tokens: seq<Token>)
    ensures tokens == Interleave(rules, op)
  {
    tokens := [];
    var i := 0;
    while i < |rules|
      invariant 0 <= i <= |rules|
      invariant tokens == Interleave(rules[..i], op)
    {
      if |tokens| > 0 {
        tokens := tokens + [Token(None, op, None)];
      }
      tokens := tokens + [RuleToken(rules[i])];
      i := i + 1;
      assert rules[..i][..i - 1] == rules[..i - 1];
      InterleaveSnoc(rules[..i], op);
    }
    assert rules[..i] == rules;
  }

  /**
   * The audience manager: the store's audiences by name, and the names
   * committed and then compiled, in order.
   */
  class AudienceManager {
    var audiences: map<string, StoredAudience>
    var committed: seq<string>

    constructor(audiences: map<string, StoredAudience>)
      ensures this.audiences == audiences && committed == []
    {
      this.audiences := audiences;
      committed := [];
    }

    /**
     * EnsureAudiencesExist(audiences, updateRules), one spec at a time:
     * create a missing audience, write the group operation and the
     * description where they differ, diff and rebuild the rules, and commit
     * and compile a changed audience.
     */
    method EnsureAudiencesExist(specs: seq<AudienceSpec>, updateRules: bool)
      modifies this
      ensures (audiences, committed) == ReconcileAllListed(old(audiences), old(committed), specs, updateRules, old(audiences).Keys)
    {
      var al := audiences.Keys;
      var i := 0;
      while i < |specs|
        invariant 0 <= i <= |specs|
        invariant ReconcileAllListed(old(audiences), old(committed), specs, updateRules, al)
          == ReconcileAllListed(audiences, committed, specs[i..], updateRules, al)
      {
        assert specs[i..][0] == specs[i] && specs[i..][1..] == specs[i + 1..];
        EnsureAudience(specs[i], updateRules, al);
        i := i + 1;
      }
      assert specs[i..] == [];
    }

    /**
     * The body of the loop for one spec, with its changed flag. The audience
     * is looked up among the names `al` listed before the loop and, when
     * listed, read from the current store; otherwise it is created.
     */
    method EnsureAudience(na: AudienceSpec, updateRules: bool, al: set<string>)
      modifies this
      ensures var (changed, ea) := Reconcile(LookupListed(old(audiences), al, na.name), na, updateRules);
        && audiences == (if changed then old(audiences)[na.name := ea] else old(audiences))
        && committed == (if changed then old(committed) + [na.name] else old(committed))
    {
      var description := if na.description.None? then na.name else na.description.value;
      var changed := false;
      var ea: StoredAudience;
      if na.name in al && na.name in audiences {
        ea := audiences[na.name];
      } else {
        ea := StoredAudience(Some(description), UnsetGroupOperation, None);
        changed := true;
      }
      var gop := GroupOperation(na.operator);
      if ea.groupOperation != gop {
        ea := ea.(groupOperation := gop);
        changed := true;
      }
      if ea.description != Some(description) {
        ea := ea.(description := Some(description));
        changed := true;
      }
      if updateRules && na.rules.Some? && |na.rules.value| > 0 {
        if ea.rules.None? {
          ea := ea.(rules := Some([]));
        }
        var erl := ea.rules.value;
        var removed := FindRemoved(na.rules.value, erl);
        var missing := FindMissing(na.rules.value, erl);
        changed := changed || removed || missing;
        if changed {
          var tokens := RebuildRules(na.rules.value, na.operator);
          ea := ea.(rules := Some(tokens));
        }
      }
      if changed {
        audiences := audiences[na.name := ea];
        committed := committed + [na.name];
      }
    }

    /**
     * EnsureAudiencesExist<T>: the specs of the profile class's properties,
     * built in nested loops, reconciled with rules updated. When building
     * the specs throws, nothing is reconciled or committed.
     */
    method EnsureAudiencesExistFor(props: seq<ProfileProperty>) returns (thrown: bool)
      modifies this
      ensures thrown <==> BuildSpecsAsWritten(Pairs(props)).Failure?
      ensures thrown ==> audiences == old(audiences) && committed == old(committed)
      ensures !thrown ==> var specs := BuildSpecs(Pairs(props));
        (audiences, committed) == ReconcileAll(old(audiences), old(committed), Values(specs), true)
    {
      var specs := CollectSpecs(props);
      if specs.Failure? {
        return true;
      }
      AsWrittenAgrees(Pairs(props));
      SpecsDistinct(props);
      ListedAgreesWhenDistinct(audiences, committed, Values(specs.value), true, audiences.Keys);
      EnsureAudiencesExist(Values(specs.value), true);
      return false;
    }
  }

  /** Dictionary.Values, in insertion order. */
  function Values(d: Dict<AudienceSpec>): (r: seq<AudienceSpec>)
    ensures |r| == |d|
    ensures forall i :: 0 <= i < |d| ==> r[i] == d[i].1
  {
    seq(|d|, i requires 0 <= i < |d| => d[i].1)
  }

  /** The specs of a profile class carry distinct names, so a second run commits nothing. */
  lemma SpecsDistinct(props: seq<ProfileProperty>)
    ensures DistinctNames(Values(BuildSpecs(Pairs(props))))
  {
    var d := BuildSpecs(Pairs(props));
    BuildSpecsSpec(Pairs(props));
    SpecsKeyedByName(Pairs(props));
  }

  /**
   * The nested loops of EnsureAudiencesExist<T> that build the specs, as
   * written: adding a rule to an audience that keeps none throws.
   */
  method CollectSpecs(props: seq<ProfileProperty>) returns (specs: Result<Dict<AudienceSpec>, string>)
    ensures specs == BuildSpecsAsWritten(Pairs(props))
  {
    var d: Dict<AudienceSpec> := [];
    var i := 0;
    while i < |props|
      invariant 0 <= i <= |props|
      invariant BuildSpecsAsWritten(Pairs(props[..i])) == Success(d)
    {
      assert props[..i + 1][..i] == props[..i];
      var r := AddProperty(d, props[i], Pairs(props[..i]));
      if r.Failure? {
        PairsPrefix(props, i + 1);
        FailureSticks(Pairs(props[..i + 1]), Pairs(props));
        return r;
      }
      d := r.value;
      i := i + 1;
    }
    assert props[..i] == props;
    return Success(d);
  }

  /** The inner loop: the audience attributes of one property, if it has a storage attribute. */
  method AddProperty(specs: Dict<AudienceSpec>, p: ProfileProperty, ghost base: seq<(string, AudienceAttribute)>)
    returns (r: Result<Dict<AudienceSpec>, string>)
    requires BuildSpecsAsWritten(base) == Success(specs)
    ensures r == BuildSpecsAsWritten(base + PairsOf(p))
  {
    var d := specs;
    ghost var mine := PairsOf(p);
    if p.storageName.Some? {
      var propname := p.storageName.value;
      var j := 0;
      assert base + mine[..0] == base;
      while j < |p.audiences|
        invariant 0 <= j <= |p.audiences|
        invariant BuildSpecsAsWritten(base + mine[..j]) == Success(d)
      {
        var aa := p.audiences[j];
        assert mine[j] == (propname, aa);
        AsWrittenPrefixStep(base, mine, j);
        var next := AddAttributeAsWritten(d, propname, aa);
        if next.Failure? {
          return next;
        }
        d := next.value;
        j := j + 1;
      }
      assert mine[..j] == mine;
    } else {
      assert base + mine == base;
    }
    return Success(d);
  }
}
