/** Which filter a JSON document is, said without reading it in order: what its members are, at any depth
    (core/filters.go:424-489, core/filters.go:598-725). */
module FilterDocuments {
  import opened Prelude
  import opened FilterSyntax

  /** The value of the first member with the key. */
  function Value(members: seq<Member>, key: string): Option<Json> {
    if members == [] then None
    else if members[0].key == key then Some(members[0].value)
    else Value(members[1..], key)
  }

  /** The keys are these, each at most once. */
  predicate KnownKeys(members: seq<Member>) {
    && (forall i :: 0 <= i < |members| ==>
          members[i].key == "operator" || members[i].key == "property" || members[i].key == "values" || members[i].key == "rules")
    && (forall i, j :: 0 <= i < j < |members| ==> members[i].key != members[j].key)
  }

  /** A string, or null for the empty one. */
  predicate IsText(j: Json, text: string) { j == JText(text) || (j == JNull && text == "") }

  /** null for no values, or a list of strings. */
  predicate AreValues(j: Json, values: Option<seq<string>>) {
    if values.None? then j == JNull
    else
      && j.JArray? && |j.items| == |values.value|
      && forall i :: 0 <= i < |j.items| ==> IsText(j.items[i], values.value[i])
  }

  /** The document is this rule. Groups may be nested down to the fourth level. */
  ghost predicate Denotes(j: Json, r: Rule, depth: nat)
    decreases r
  {
    && j.JObject? && KnownKeys(j.members)
    && Value(j.members, "operator").Some? && IsText(Value(j.members, "operator").value, r.operator)
    && match r
       case Group(_, rules) =>
         && depth <= 4 && Value(j.members, "property") == None && Value(j.members, "values") == None
         && Value(j.members, "rules").Some? && Value(j.members, "rules").value.JArray?
         && var items := Value(j.members, "rules").value.items;
            |items| == |rules| && forall i :: 0 <= i < |rules| ==> Denotes(items[i], rules[i], depth + 1)
       case Condition(property, _, values) =>
         && Value(j.members, "rules") == None
         && Value(j.members, "property").Some? && IsText(Value(j.members, "property").value, property)
         && if Value(j.members, "values").Some? then AreValues(Value(j.members, "values").value, values) else values.None?
  }

  // ---- Texts and values --------------------------------------------------------------------------------------------

  lemma TextIs(j: Json, text: string)
    ensures TextOf(j) == Some(text) <==> IsText(j, text)
  {
  }

  lemma {:induction false} TextsAre(items: seq<Json>, texts: seq<string>)
    ensures TextsOf(items) == Some(texts) <==> |items| == |texts| && forall i :: 0 <= i < |items| ==> IsText(items[i], texts[i])
  {
    if items != [] {
      if texts != [] {
        TextIs(items[0], texts[0]);
        TextsAre(items[1..], texts[1..]);
        assert texts == [texts[0]] + texts[1..];
        if forall i :: 0 <= i < |items| ==> |items| == |texts| && IsText(items[i], texts[i]) {
          assert forall i :: 0 <= i < |items[1..]| ==> items[1..][i] == items[i + 1] && texts[1..][i] == texts[i + 1];
        }
        if TextsOf(items) == Some(texts) {
          assert TextsOf(items[1..]) == Some(texts[1..]);
          forall i | 0 <= i < |items| ensures IsText(items[i], texts[i]) {
            if i > 0 { assert items[1..][i - 1] == items[i] && texts[1..][i - 1] == texts[i]; }
          }
        }
      }
    }
  }

  lemma ValuesAre(j: Json, values: Option<seq<string>>)
    ensures ValuesOf(j) == Some(values) <==> AreValues(j, values)
  {
    if j.JArray? && values.Some? { TextsAre(j.items, values.value); }
  }

  // ---- Members -----------------------------------------------------------------------------------------------------

  /** What reading some members adds to the fields. */
  ghost predicate Adds(members: seq<Member>, f: Fields, g: Fields, depth: nat) {
    && KnownKeys(members)
    && (match Value(members, "operator")
        case None => g.operator == f.operator
        case Some(j) => f.operator == None && g.operator.Some? && IsText(j, g.operator.value))
    && (match Value(members, "property")
        case None => g.property == f.property
        case Some(j) => f.property == None && g.property.Some? && IsText(j, g.property.value))
    && (match Value(members, "values")
        case None => g.values == f.values
        case Some(j) => f.values == None && g.values.Some? && AreValues(j, g.values.value))
    && (match Value(members, "rules")
        case None => g.rules == f.rules && g.count == f.count
        case Some(j) =>
          && f.rules == None && g.rules.Some? && depth <= 4 && j.JArray?
          && RulesOf(j.items, [], 0, depth) == Some((g.rules.value, g.count)))
  }

  lemma KnownTail(members: seq<Member>)
    requires members != []
    ensures KnownKeys(members) <==>
      KnownKeys(members[1..]) && Value(members[1..], members[0].key) == None
      && (members[0].key == "operator" || members[0].key == "property" || members[0].key == "values" || members[0].key == "rules")
  {
    NoValue(members[1..], members[0].key);
    assert forall i :: 0 < i < |members| ==> members[i] == members[1..][i - 1];
  }

  lemma {:induction false} NoValue(members: seq<Member>, key: string)
    ensures Value(members, key) == None <==> forall i :: 0 <= i < |members| ==> members[i].key != key
  {
    if members != [] {
      NoValue(members[1..], key);
      assert forall i :: 0 < i < |members| ==> members[i] == members[1..][i - 1];
    }
  }

  lemma OneValue(m: Member, key: string)
    ensures Value([m], key) == if m.key == key then Some(m.value) else None
  {
    assert [m][1..] == [];
    assert Value([m][1..], key) == None;
  }

  /** One member, when no group is required. */
  lemma MemberAdds(f: Fields, m: Member, g: Fields, depth: nat)
    ensures WithMember(f, m, depth, false) == Some(g) <==> Adds([m], f, g, depth)
  {
    OneValue(m, "operator");
    OneValue(m, "property");
    OneValue(m, "values");
    OneValue(m, "rules");
    TextsOfFields(m, g);
    assert [m][0] == m;
    if m.key == "operator" {
      OperatorAdds(f, m, g, depth);
    } else if m.key == "property" {
      PropertyAdds(f, m, g, depth);
    } else if m.key == "values" {
      ValuesAdd(f, m, g, depth);
    } else if m.key == "rules" {
      RulesAdd(f, m, g, depth);
    }
  }

  lemma OperatorAdds(f: Fields, m: Member, g: Fields, depth: nat)
    requires m.key == "operator"
    ensures WithMember(f, m, depth, false) == Some(g) <==>
      f.operator == None && g.operator.Some? && IsText(m.value, g.operator.value) && g == f.(operator := g.operator)
  {
    TextsOfFields(m, g);
  }

  lemma PropertyAdds(f: Fields, m: Member, g: Fields, depth: nat)
    requires m.key == "property"
    ensures WithMember(f, m, depth, false) == Some(g) <==>
      f.property == None && g.property.Some? && IsText(m.value, g.property.value) && g == f.(property := g.property)
  {
    TextsOfFields(m, g);
  }

  lemma ValuesAdd(f: Fields, m: Member, g: Fields, depth: nat)
    requires m.key == "values"
    ensures WithMember(f, m, depth, false) == Some(g) <==>
      f.values == None && g.values.Some? && AreValues(m.value, g.values.value) && g == f.(values := g.values)
  {
    TextsOfFields(m, g);
  }

  lemma RulesAdd(f: Fields, m: Member, g: Fields, depth: nat)
    requires m.key == "rules"
    ensures WithMember(f, m, depth, false) == Some(g) <==>
      f.rules == None && g.rules.Some? && depth <= 4 && m.value.JArray?
      && RulesOf(m.value.items, [], 0, depth) == Some((g.rules.value, g.count))
      && g == f.(rules := g.rules, count := g.count)
  {
  }

  lemma TextsOfFields(m: Member, g: Fields)
    ensures g.operator.Some? ==> (TextOf(m.value) == g.operator <==> IsText(m.value, g.operator.value))
    ensures g.property.Some? ==> (TextOf(m.value) == g.property <==> IsText(m.value, g.property.value))
    ensures g.values.Some? ==> (ValuesOf(m.value) == g.values <==> AreValues(m.value, g.values.value))
  {
    if g.values.Some? { ValuesAre(m.value, g.values.value); }
  }

  /** The fields after one member, of those after all. */
  function Between(f: Fields, m: Member, g: Fields): Fields {
    if m.key == "operator" then f.(operator := g.operator)
    else if m.key == "property" then f.(property := g.property)
    else if m.key == "values" then f.(values := g.values)
    else f.(rules := g.rules, count := g.count)
  }

  lemma ValueFirst(members: seq<Member>, key: string)
    requires members != []
    ensures Value(members, key) == if members[0].key == key then Some(members[0].value) else Value(members[1..], key)
  {
  }

  lemma AddsOneByOne(members: seq<Member>, f: Fields, g: Fields, depth: nat)
    requires members != []
    ensures Adds(members, f, g, depth) <==>
      Adds([members[0]], f, Between(f, members[0], g), depth) && Adds(members[1..], Between(f, members[0], g), g, depth)
  {
    var m := members[0];
    KnownTail(members);
    forall key ensures Value([m], key) == if m.key == key then Some(m.value) else None { OneValue(m, key); }
    forall key ensures Value(members, key) == if m.key == key then Some(m.value) else Value(members[1..], key) {
      ValueFirst(members, key);
    }
    assert [m][0] == m;
  }

  lemma AddsBetween(m: Member, rest: seq<Member>, f: Fields, h: Fields, g: Fields, depth: nat)
    requires Adds([m], f, h, depth) && Adds(rest, h, g, depth)
    ensures h == Between(f, m, g)
  {
    forall key ensures Value([m], key) == if m.key == key then Some(m.value) else None { OneValue(m, key); }
    assert [m][0] == m;
  }

  /** Reading the members of a rule gives exactly the fields that the members are of. */
  lemma {:induction false} FieldsAre(members: seq<Member>, f: Fields, g: Fields, depth: nat)
    ensures FieldsOf(members, f, depth, false) == Some(g) <==> Adds(members, f, g, depth)
  {
    if members != [] {
      var m, h := members[0], Between(f, members[0], g);
      AddsOneByOne(members, f, g, depth);
      MemberAdds(f, m, h, depth);
      FieldsAre(members[1..], h, g, depth);
      if FieldsOf(members, f, depth, false) == Some(g) {
        var first := WithMember(f, m, depth, false).value;
        MemberAdds(f, m, first, depth);
        FieldsAre(members[1..], first, g, depth);
        AddsBetween(m, members[1..], f, first, g, depth);
      }
    }
  }

  // ---- Rules -------------------------------------------------------------------------------------------------------

  /** The number that is read with a rule is that of its descendants. */
  lemma {:induction false} CountIsRead(j: Json, r: Rule, n: nat, depth: nat)
    requires RuleOf(j, depth, false) == Some((r, n))
    ensures n == Count(r) && (r.Group? ==> n <= 100)
    decreases j, 1
  {
    var f := FieldsOf(j.members, NO_FIELDS, depth, false).value;
    FieldsAre(j.members, NO_FIELDS, f, depth);
    if f.rules.Some? {
      var items := Value(j.members, "rules").value;
      ValueIsBelow(j.members, "rules");
      RulesAreCounted(items.items, [], 0, f.rules.value, f.count, depth);
    }
  }

  lemma {:induction false} ValueIsBelow(members: seq<Member>, key: string)
    requires Value(members, key).Some?
    ensures exists m :: m in members && m.value == Value(members, key).value
  {
    if members[0].key != key {
      ValueIsBelow(members[1..], key);
      var m :| m in members[1..] && m.value == Value(members[1..], key).value;
      assert m in members;
    }
  }

  lemma {:induction false} RulesAreCounted(items: seq<Json>, read: seq<Rule>, count: nat, rules: seq<Rule>, n: nat, depth: nat)
    requires RulesOf(items, read, count, depth) == Some((rules, n)) && count == CountAll(read) && count <= 100
    ensures n == CountAll(rules) && n <= 100
    decreases items, 0
  {
    if items != [] {
      var (rule, below) := RuleOf(items[0], depth + 1, false).value;
      CountIsRead(items[0], rule, below, depth + 1);
      CountSnoc(read, rule);
      RulesAreCounted(items[1..], read + [rule], count + below + 1, rules, n, depth);
    }
  }

  lemma {:induction false} CountSnoc(rules: seq<Rule>, r: Rule)
    ensures CountAll(rules + [r]) == CountAll(rules) + 1 + Count(r)
  {
    if rules == [] {
      assert [] + [r] == [r] && [r][1..] == [];
    } else {
      CountSnoc(rules[1..], r);
      assert (rules + [r])[1..] == rules[1..] + [r];
    }
  }

  /** Reading a value, at some depth, gives the rule that it denotes, if that has at most a hundred rules below it. */
  lemma {:induction false} RuleIsDenoted(j: Json, r: Rule, depth: nat)
    ensures RuleOf(j, depth, false) == Some((r, Count(r))) <==> Denotes(j, r, depth) && Count(r) <= 100
    decreases r, 1
  {
    if RuleOf(j, depth, false) == Some((r, Count(r))) {
      var f := FieldsOf(j.members, NO_FIELDS, depth, false).value;
      FieldsAre(j.members, NO_FIELDS, f, depth);
      if r.Group? {
        assert [] + r.rules == r.rules;
        RulesAreDenoted(Value(j.members, "rules").value.items, r.rules, [], 0, depth);
        CountIsRead(j, r, Count(r), depth);
      }
    }
    if Denotes(j, r, depth) && Count(r) <= 100 { DenotedIsRead(j, r, depth); }
  }

  lemma {:induction false} DenotedIsRead(j: Json, r: Rule, depth: nat)
    requires Denotes(j, r, depth) && Count(r) <= 100
    ensures RuleOf(j, depth, false) == Some((r, Count(r)))
    decreases r, 0
  {
    var operator := Some(r.operator);
    match r
    case Condition(property, _, values) =>
      var given := if Value(j.members, "values").Some? then Some(values) else None;
      FieldsAre(j.members, NO_FIELDS, Fields(operator, Some(property), None, given, 0), depth);
    case Group(_, rules) =>
      assert [] + rules == rules;
      RulesAreDenoted(Value(j.members, "rules").value.items, rules, [], 0, depth);
      FieldsAre(j.members, NO_FIELDS, Fields(operator, None, Some(rules), None, CountAll(rules)), depth);
  }

  lemma {:induction false} RulesAreDenoted(items: seq<Json>, rules: seq<Rule>, read: seq<Rule>, count: nat, depth: nat)
    requires count == CountAll(read) && count <= 100
    ensures RulesOf(items, read, count, depth) == Some((read + rules, count + CountAll(rules))) <==>
      && |items| == |rules| && count + CountAll(rules) <= 100
      && forall i :: 0 <= i < |rules| ==> Denotes(items[i], rules[i], depth + 1)
    decreases rules, 0
  {
    if items == [] {
      if rules == [] { assert read + rules == read; } else { assert |read + rules| > |read|; }
    } else if rules == [] {
      assert read + rules == read;
      if RulesOf(items, read, count, depth).Some? {
        var (all, n) := RulesOf(items, read, count, depth).value;
        RulesOnlyGrow(items, read, count, all, n, depth);
      }
    } else {
      if RulesOf(items, read, count, depth) == Some((read + rules, count + CountAll(rules))) {
        ReadAreDenoted(items, rules, read, count, depth);
      }
      if |items| == |rules| && count + CountAll(rules) <= 100
         && forall i :: 0 <= i < |rules| ==> Denotes(items[i], rules[i], depth + 1)
      {
        DenotedAreRead(items, rules, read, count, depth);
      }
    }
  }

  lemma {:induction false} ReadAreDenoted(items: seq<Json>, rules: seq<Rule>, read: seq<Rule>, count: nat, depth: nat)
    requires count == CountAll(read) && count <= 100 && items != [] && rules != []
    requires RulesOf(items, read, count, depth) == Some((read + rules, count + CountAll(rules)))
    ensures |items| == |rules| && count + CountAll(rules) <= 100
    ensures forall i :: 0 <= i < |rules| ==> Denotes(items[i], rules[i], depth + 1)
    decreases rules, 0, 0
  {
    var (rule, below) := RuleOf(items[0], depth + 1, false).value;
    CountIsRead(items[0], rule, below, depth + 1);
    CountSnoc(read, rule);
    RulesOnlyGrow(items[1..], read + [rule], count + below + 1, read + rules, count + CountAll(rules), depth);
    assert (read + rules)[|read|] == rule == rules[0];
    RuleIsDenoted(items[0], rule, depth + 1);
    assert read + [rule] + rules[1..] == read + rules;
    RulesAreDenoted(items[1..], rules[1..], read + [rule], count + below + 1, depth);
    forall i | 0 <= i < |rules| ensures |items| == |rules| && Denotes(items[i], rules[i], depth + 1) {
      if i > 0 { assert items[1..][i - 1] == items[i] && rules[1..][i - 1] == rules[i]; }
    }
  }

  lemma {:induction false} DenotedAreRead(items: seq<Json>, rules: seq<Rule>, read: seq<Rule>, count: nat, depth: nat)
    requires count == CountAll(read) && items != [] && |items| == |rules| && count + CountAll(rules) <= 100
    requires forall i :: 0 <= i < |rules| ==> Denotes(items[i], rules[i], depth + 1)
    ensures RulesOf(items, read, count, depth) == Some((read + rules, count + CountAll(rules)))
    decreases rules, 0, 0
  {
    RuleIsDenoted(items[0], rules[0], depth + 1);
    CountSnoc(read, rules[0]);
    assert read + [rules[0]] + rules[1..] == read + rules;
    forall i | 0 <= i < |rules[1..]| ensures Denotes(items[1..][i], rules[1..][i], depth + 1) {
      assert items[1..][i] == items[i + 1] && rules[1..][i] == rules[i + 1];
    }
    RulesAreDenoted(items[1..], rules[1..], read + [rules[0]], count + Count(rules[0]) + 1, depth);
  }

  lemma {:induction false} RulesOnlyGrow(items: seq<Json>, read: seq<Rule>, count: nat, all: seq<Rule>, n: nat, depth: nat)
    requires RulesOf(items, read, count, depth) == Some((all, n))
    ensures read <= all && |all| == |read| + |items|
    decreases items
  {
    if items != [] {
      var (rule, below) := RuleOf(items[0], depth + 1, false).value;
      RulesOnlyGrow(items[1..], read + [rule], count + below + 1, all, n, depth);
    }
  }

  // ---- A whole filter ----------------------------------------------------------------------------------------------

  /** A document has a member with the key of a condition. */
  predicate HasConditionKey(members: seq<Member>) {
    exists i :: 0 <= i < |members| && (members[i].key == "property" || members[i].key == "values")
  }

  /** Where a group is required, properties and values are skipped. */
  lemma {:induction false} WithoutConditionKey(members: seq<Member>, f: Fields, depth: nat)
    requires !HasConditionKey(members)
    ensures FieldsOf(members, f, depth, true) == FieldsOf(members, f, depth, false)
  {
    if members != [] {
      var m := members[0];
      assert m.key != "property" && m.key != "values";
      assert forall i :: 0 <= i < |members[1..]| ==> members[1..][i] == members[i + 1];
      assert WithMember(f, m, depth, true) == WithMember(f, m, depth, false);
      if WithMember(f, m, depth, true).Some? { WithoutConditionKey(members[1..], WithMember(f, m, depth, true).value, depth); }
    }
  }

  /** But then there is no group. */
  lemma {:induction false} WithConditionKey(members: seq<Member>, f: Fields, g: Fields, depth: nat, required: bool)
    requires HasConditionKey(members) || f.property.Some? || f.values.Some?
    requires FieldsOf(members, f, depth, required) == Some(g)
    ensures g.property.Some? || g.values.Some?
  {
    if members != [] {
      var m, h := members[0], WithMember(f, members[0], depth, required).value;
      if h.property.None? && h.values.None? {
        assert m.key != "property" && m.key != "values";
        var i :| 0 <= i < |members| && (members[i].key == "property" || members[i].key == "values");
        assert members[1..][i - 1] == members[i];
      }
      WithConditionKey(members[1..], h, g, depth, required);
    }
  }

  /** In front, the parser requires a group; that makes no other difference. */
  lemma GroupsAreReadAlike(j: Json, r: Rule, n: nat, depth: nat)
    requires r.Group?
    ensures RuleOf(j, depth, true) == Some((r, n)) <==> RuleOf(j, depth, false) == Some((r, n))
  {
    if j.JObject? {
      if !HasConditionKey(j.members) { WithoutConditionKey(j.members, NO_FIELDS, depth); }
      forall required: bool | HasConditionKey(j.members) && FieldsOf(j.members, NO_FIELDS, depth, required).Some?
        ensures
          var g := FieldsOf(j.members, NO_FIELDS, depth, required).value;
          g.property.Some? || g.values.Some?
      {
        WithConditionKey(j.members, NO_FIELDS, FieldsOf(j.members, NO_FIELDS, depth, required).value, depth, required);
      }
    }
  }

  /** A document is read as a filter exactly if it is one, of at most four levels and a hundred rules; and as that one. */
  lemma FilterIsDenoted(j: Json, r: Rule)
    ensures RuleOf(j, 1, true) == Some((r, Count(r))) <==> r.Group? && Denotes(j, r, 1) && Count(r) <= 100
  {
    RuleIsDenoted(j, r, 1);
    if r.Group? { GroupsAreReadAlike(j, r, Count(r), 1); }
  }
}
