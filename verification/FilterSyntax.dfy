/** Filters, their JSON form, and the recursive-descent parser that reads them back from a stream of
    tokens (core/filters.go:424-489, core/filters.go:598-725). */
module FilterSyntax {
  import opened Prelude

  const MAX_DEPTH := 4
  const MAX_RULES := 100

  /** A rule is a group of rules or a condition. Absent values differ from empty ones. */
  datatype Rule =
    | Group(operator: string, rules: seq<Rule>)
    | Condition(property: string, operator: string, values: Option<seq<string>>)

  /** The number of rules below a rule. */
  function Count(r: Rule): nat
    decreases r, 1
  {
    match r
    case Group(_, rules) => CountAll(rules)
    case Condition(_, _, _) => 0
  }

  /** The number of rules in a list, descendants included. */
  function CountAll(rules: seq<Rule>): nat
    decreases rules, 0
  {
    if rules == [] then 0 else 1 + Count(rules[0]) + CountAll(rules[1..])
  }

  /** The number of nested groups on the longest way down. */
  function Levels(r: Rule): nat
    decreases r, 1
  {
    match r
    case Group(_, rules) => 1 + LevelsAll(rules)
    case Condition(_, _, _) => 0
  }

  function LevelsAll(rules: seq<Rule>): nat
    decreases rules, 0
  {
    if rules == [] then 0 else
      var first, rest := Levels(rules[0]), LevelsAll(rules[1..]);
      if first < rest then rest else first
  }

  // ---- JSON --------------------------------------------------------------------------------------------

  datatype Token = ObjectBegin | ObjectEnd | ArrayBegin | ArrayEnd | Text(text: string) | Null | Scalar

  /** A JSON value; numbers and booleans are all alike to a filter. */
  datatype Json =
    | JText(text: string)
    | JNull
    | JScalar
    | JArray(items: seq<Json>)
    | JObject(members: seq<Member>)

  datatype Member = Member(key: string, value: Json)

  function Tokens(j: Json): seq<Token>
    decreases j, 1
  {
    match j
    case JText(text) => [Text(text)]
    case JNull => [Null]
    case JScalar => [Scalar]
    case JArray(items) => [ArrayBegin] + ItemTokens(items) + [ArrayEnd]
    case JObject(members) => [ObjectBegin] + MemberTokens(members) + [ObjectEnd]
  }

  function ItemTokens(items: seq<Json>): seq<Token>
    decreases items, 0
  {
    if items == [] then [] else Tokens(items[0]) + ItemTokens(items[1..])
  }

  function MemberTokens(members: seq<Member>): seq<Token>
    decreases members, 0
  {
    if members == [] then [] else [Text(members[0].key)] + Tokens(members[0].value) + MemberTokens(members[1..])
  }

  /** The JSON form of a rule. */
  function Printed(r: Rule): Json
    decreases r, 1
  {
    match r
    case Group(operator, rules) =>
      JObject([Member("operator", JText(operator)), Member("rules", JArray(PrintedAll(rules)))])
    case Condition(property, operator, values) =>
      JObject([Member("property", JText(property)), Member("operator", JText(operator))]
              + (if values.Some? then [Member("values", JArray(Texts(values.value)))] else []))
  }

  function PrintedAll(rules: seq<Rule>): seq<Json>
    decreases rules, 0
  {
    if rules == [] then [] else [Printed(rules[0])] + PrintedAll(rules[1..])
  }

  function Texts(values: seq<string>): seq<Json> {
    if values == [] then [] else [JText(values[0])] + Texts(values[1..])
  }

  // ---- What a JSON value means ------------------------------------------------------------------------------

  /** The members of a rule object read so far; `values` is absent, null (Some(None)) or a list. */
  datatype Fields = Fields(
    operator: Option<string>, property: Option<string>, rules: Option<seq<Rule>>,
    values: Option<Option<seq<string>>>, count: nat)

  const NO_FIELDS := Fields(None, None, None, None, 0)

  /** The rule that the members of an object make up, with its number of descendants. */
  function Finish(f: Fields, expectGroup: bool): Option<(Rule, nat)> {
    if f.rules.Some? then
      if f.property.Some? || f.values.Some? || f.operator.None? then None
      else Some((Group(f.operator.value, f.rules.value), f.count))
    else if expectGroup || f.property.None? || f.operator.None? then None
    else Some((Condition(f.property.value, f.operator.value, if f.values.Some? then f.values.value else None), 0))
  }

  /** null decodes as the zero value. */
  function TextOf(j: Json): Option<string> {
    match j
    case JText(text) => Some(text)
    case JNull => Some("")
    case _ => None
  }

  function TextsOf(items: seq<Json>): Option<seq<string>> {
    if items == [] then Some([])
    else
      match (TextOf(items[0]), TextsOf(items[1..]))
      case (Some(first), Some(rest)) => Some([first] + rest)
      case _ => None
  }

  function ValuesOf(j: Json): Option<Option<seq<string>>> {
    match j
    case JNull => Some(None)
    case JArray(items) => (match TextsOf(items) case Some(texts) => Some(Some(texts)) case None => None)
    case _ => None
  }

  /** The rule that a JSON value denotes at the given depth, within the limits. */
  function RuleOf(j: Json, depth: nat, expectGroup: bool): Option<(Rule, nat)>
    decreases j, 1
  {
    match j
    case JObject(members) =>
      (match FieldsOf(members, NO_FIELDS, depth, expectGroup)
       case Some(f) => Finish(f, expectGroup)
       case None => None)
    case _ => None
  }

  function FieldsOf(members: seq<Member>, f: Fields, depth: nat, expectGroup: bool): Option<Fields>
    decreases members, 0
  {
    if members == [] then Some(f)
    else
      match WithMember(f, members[0], depth, expectGroup)
      case Some(f') => FieldsOf(members[1..], f', depth, expectGroup)
      case None => None
  }

  /** The fields once one more member is read. Each key counts once; for a group that is required,
      the property and the values are skipped, whatever they are. */
  function WithMember(f: Fields, m: Member, depth: nat, expectGroup: bool): Option<Fields>
    decreases m, 2
  {
    match m.key
    case "operator" =>
      (match TextOf(m.value)
       case Some(text) => if f.operator.Some? then None else Some(f.(operator := Some(text)))
       case None => None)
    case "property" =>
      if f.property.Some? then None
      else if expectGroup then Some(f.(property := Some("")))
      else (match TextOf(m.value) case Some(text) => Some(f.(property := Some(text))) case None => None)
    case "values" =>
      if f.values.Some? then None
      else if expectGroup then Some(f.(values := Some(None)))
      else (match ValuesOf(m.value) case Some(values) => Some(f.(values := Some(values))) case None => None)
    case "rules" =>
      if f.rules.Some? || depth > MAX_DEPTH || !m.value.JArray? then None
      else
        (match RulesOf(m.value.items, [], 0, depth)
         case Some((rules, count)) => Some(f.(rules := Some(rules), count := count))
         case None => None)
    case _ => None
  }

  /** The rules of a group, appended to those already read, of which there are `count` with their descendants. */
  function RulesOf(items: seq<Json>, read: seq<Rule>, count: nat, depth: nat): Option<(seq<Rule>, nat)>
    decreases items, 0
  {
    if items == [] then Some((read, count))
    else
      match RuleOf(items[0], depth + 1, false)
      case Some((rule, below)) =>
        if count + below + 1 > MAX_RULES then None
        else RulesOf(items[1..], read + [rule], count + below + 1, depth)
      case None => None
  }

  // ---- Printing and reading back ---------------------------------------------------------------------------------

  predicate WithinLimits(r: Rule, depth: nat) { depth + Levels(r) <= MAX_DEPTH + 1 && Count(r) <= MAX_RULES }

  lemma {:induction false} TextsRoundTrip(values: seq<string>)
    ensures TextsOf(Texts(values)) == Some(values)
  {
    if values != [] {
      TextsRoundTrip(values[1..]);
      assert Texts(values)[1..] == Texts(values[1..]);
      assert [values[0]] + values[1..] == values;
    }
  }

  lemma ConditionRoundTrip(r: Rule, depth: nat)
    requires r.Condition?
    ensures RuleOf(Printed(r), depth, false) == Some((r, 0))
  {
    var ms := Printed(r).members;
    var f1 := NO_FIELDS.(property := Some(r.property));
    var f2 := f1.(operator := Some(r.operator));
    assert WithMember(NO_FIELDS, ms[0], depth, false) == Some(f1);
    assert WithMember(f1, ms[1], depth, false) == Some(f2);
    assert FieldsOf(ms, NO_FIELDS, depth, false) == FieldsOf(ms[1..], f1, depth, false) == FieldsOf(ms[1..][1..], f2, depth, false);
    assert ms[1..][1..] == ms[2..];
    if r.values.Some? {
      TextsRoundTrip(r.values.value);
      var f3 := f2.(values := Some(r.values));
      assert WithMember(f2, ms[2], depth, false) == Some(f3);
      assert ms[2..] == [ms[2]];
      assert ms[2..][1..] == [];
      assert FieldsOf(ms[2..], f2, depth, false) == FieldsOf([], f3, depth, false);
    }
  }

  lemma OneMember(f: Fields, m: Member, depth: nat, expectGroup: bool)
    ensures FieldsOf([m], f, depth, expectGroup) == WithMember(f, m, depth, expectGroup)
  {
    assert [m][1..] == [];
    match WithMember(f, m, depth, expectGroup)
    case Some(f') => assert FieldsOf([], f', depth, expectGroup) == Some(f');
    case None =>
  }

  /** Reading back the printed form of a group gives the group if it is within the limits, and fails
      otherwise: the rules counted bottom-up and the depth tested at each "rules" key. */
  lemma {:induction false} RoundTrip(r: Rule, depth: nat, expectGroup: bool)
    requires depth >= 1 && (expectGroup ==> r.Group?)
    ensures RuleOf(Printed(r), depth, expectGroup) == if WithinLimits(r, depth) || r.Condition? then Some((r, Count(r))) else None
    decreases r, 1
  {
    match r {
      case Condition(_, _, _) => ConditionRoundTrip(r, depth);
      case Group(operator, rules) =>
        var ms := Printed(r).members;
        var f1 := NO_FIELDS.(operator := Some(operator));
        assert WithMember(NO_FIELDS, ms[0], depth, expectGroup) == Some(f1);
        assert FieldsOf(ms, NO_FIELDS, depth, expectGroup) == FieldsOf(ms[1..], f1, depth, expectGroup);
        assert ms[1..] == [ms[1]] && ms[1..][1..] == [];
        assert ms[1].value.items == PrintedAll(rules);
        OneMember(f1, ms[1], depth, expectGroup);
        assert FieldsOf(ms[1..], f1, depth, expectGroup) == WithMember(f1, ms[1], depth, expectGroup);
        if depth <= MAX_DEPTH {
          RulesRoundTrip(rules, [], 0, depth);
          assert [] + rules == rules;
        }
    }
  }

  lemma {:induction false} RulesRoundTrip(rules: seq<Rule>, read: seq<Rule>, count: nat, depth: nat)
    requires 1 <= depth <= MAX_DEPTH && count <= MAX_RULES
    ensures RulesOf(PrintedAll(rules), read, count, depth) ==
      if depth + 1 + LevelsAll(rules) <= MAX_DEPTH + 1 && count + CountAll(rules) <= MAX_RULES
      then Some((read + rules, count + CountAll(rules))) else None
    decreases rules, 0
  {
    if rules == [] {
      assert read + rules == read;
    } else {
      RoundTrip(rules[0], depth + 1, false);
      assert PrintedAll(rules)[0] == Printed(rules[0]) && PrintedAll(rules)[1..] == PrintedAll(rules[1..]);
      var below := Count(rules[0]);
      if count + below + 1 <= MAX_RULES {
        RulesRoundTrip(rules[1..], read + [rules[0]], count + below + 1, depth);
        assert read + [rules[0]] + rules[1..] == read + rules;
      }
    }
  }

  // ---- The order of the keys -------------------------------------------------------------------------------------------

  lemma MembersCommute(f: Fields, m: Member, n: Member, depth: nat, expectGroup: bool)
    ensures FieldsOf([m, n], f, depth, expectGroup) == FieldsOf([n, m], f, depth, expectGroup)
  {
    FieldsOfTwo(f, m, n, depth, expectGroup);
    FieldsOfTwo(f, n, m, depth, expectGroup);
  }

  function Then(f: Option<Fields>, m: Member, depth: nat, expectGroup: bool): Option<Fields> {
    match f case Some(f) => WithMember(f, m, depth, expectGroup) case None => None
  }

  lemma FieldsOfTwo(f: Fields, m: Member, n: Member, depth: nat, expectGroup: bool)
    ensures FieldsOf([m, n], f, depth, expectGroup) == Then(WithMember(f, m, depth, expectGroup), n, depth, expectGroup)
  {
    assert [m, n][1..] == [n] && [n][1..] == [];
    match WithMember(f, m, depth, expectGroup)
    case Some(f') => assert FieldsOf([n], f', depth, expectGroup) == WithMember(f', n, depth, expectGroup);
    case None =>
  }

  /** The fields after a list of members, and then the rest. */
  lemma {:induction false} FieldsOfConcat(a: seq<Member>, b: seq<Member>, f: Fields, depth: nat, expectGroup: bool)
    ensures FieldsOf(a + b, f, depth, expectGroup) ==
      match FieldsOf(a, f, depth, expectGroup) case Some(f') => FieldsOf(b, f', depth, expectGroup) case None => None
    decreases |a|
  {
    if a == [] {
      assert a + b == b;
    } else {
      assert (a + b)[1..] == a[1..] + b;
      match WithMember(f, a[0], depth, expectGroup)
      case Some(f') => FieldsOfConcat(a[1..], b, f', depth, expectGroup);
      case None =>
    }
  }

  /** A member can be read first instead of last. */
  lemma {:induction false} MoveToFront(a: seq<Member>, m: Member, f: Fields, depth: nat, expectGroup: bool)
    ensures FieldsOf(a + [m], f, depth, expectGroup) == FieldsOf([m] + a, f, depth, expectGroup)
    decreases |a|
  {
    if a == [] {
      assert a + [m] == [m] + a;
    } else {
      var init, last := a[..|a| - 1], a[|a| - 1];
      assert a + [m] == init + [last, m];
      FieldsOfConcat(init, [last, m], f, depth, expectGroup);
      FieldsOfConcat(init, [m, last], f, depth, expectGroup);
      match FieldsOf(init, f, depth, expectGroup) {
        case Some(f') => MembersCommute(f', last, m, depth, expectGroup);
        case None =>
      }
      assert init + [m, last] == (init + [m]) + [last];
      FieldsOfConcat(init + [m], [last], f, depth, expectGroup);
      MoveToFront(init, m, f, depth, expectGroup);
      assert [m] + a == ([m] + init) + [last];
      FieldsOfConcat([m] + init, [last], f, depth, expectGroup);
    }
  }

  /** The same members in any order give the same fields, or fail alike. */
  lemma {:induction false} OrderOfMembers(a: seq<Member>, b: seq<Member>, f: Fields, depth: nat, expectGroup: bool)
    requires multiset(a) == multiset(b)
    ensures FieldsOf(a, f, depth, expectGroup) == FieldsOf(b, f, depth, expectGroup)
    decreases |a|
  {
    if a == [] {
      assert |multiset(b)| == 0;
    } else {
      assert a[0] in multiset(b);
      var i :| 0 <= i < |b| && b[i] == a[0];
      var rest := RemoveAt(b, i);
      assert b == (b[..i] + [b[i]]) + b[i + 1..];
      assert [b[i]] + rest == ([b[i]] + b[..i]) + b[i + 1..];
      FieldsOfConcat(b[..i] + [b[i]], b[i + 1..], f, depth, expectGroup);
      FieldsOfConcat([b[i]] + b[..i], b[i + 1..], f, depth, expectGroup);
      MoveToFront(b[..i], b[i], f, depth, expectGroup);
      assert a == [a[0]] + a[1..];
      assert multiset(a[1..]) == multiset(a) - multiset{a[0]};
      assert ([b[i]] + rest)[1..] == rest;
      match WithMember(f, a[0], depth, expectGroup)
      case Some(f') => OrderOfMembers(a[1..], rest, f', depth, expectGroup);
      case None =>
    }
  }

  /** The two values differ at most in the order of the keys of their objects, at any depth. */
  ghost predicate SameUpToOrder(a: Json, b: Json)
    decreases a
  {
    match a
    case JArray(items) =>
      b.JArray? && |b.items| == |items| && forall i :: 0 <= i < |items| ==> SameUpToOrder(items[i], b.items[i])
    case JObject(members) =>
      b.JObject? && exists ordered: seq<Member> ::
        && multiset(ordered) == multiset(b.members) && |ordered| == |members|
        && forall i :: 0 <= i < |members| ==>
             members[i].key == ordered[i].key && SameUpToOrder(members[i].value, ordered[i].value)
    case _ => a == b
  }

  lemma {:induction false} TextsAlike(a: seq<Json>, b: seq<Json>)
    requires |a| == |b| && forall i :: 0 <= i < |a| ==> TextOf(a[i]) == TextOf(b[i])
    ensures TextsOf(a) == TextsOf(b)
  {
    if a != [] { TextsAlike(a[1..], b[1..]); }
  }

  lemma {:induction false} RulesAlike(a: seq<Json>, b: seq<Json>, read: seq<Rule>, count: nat, depth: nat)
    requires |a| == |b| && forall i :: 0 <= i < |a| ==> RuleOf(a[i], depth + 1, false) == RuleOf(b[i], depth + 1, false)
    ensures RulesOf(a, read, count, depth) == RulesOf(b, read, count, depth)
  {
    if a != [] {
      var head := RuleOf(a[0], depth + 1, false);
      if head.Some? && count + head.value.1 + 1 <= MAX_RULES {
        RulesAlike(a[1..], b[1..], read + [head.value.0], count + head.value.1 + 1, depth);
      }
    }
  }

  lemma ArraysAlike(m: Member, n: Member, f: Fields, depth: nat, expectGroup: bool)
    requires m.key == n.key && m.value.JArray? && n.value.JArray? && |m.value.items| == |n.value.items|
    requires forall i :: 0 <= i < |m.value.items| ==>
      && TextOf(m.value.items[i]) == TextOf(n.value.items[i])
      && RuleOf(m.value.items[i], depth + 1, false) == RuleOf(n.value.items[i], depth + 1, false)
    ensures WithMember(f, m, depth, expectGroup) == WithMember(f, n, depth, expectGroup)
  {
    TextsAlike(m.value.items, n.value.items);
    RulesAlike(m.value.items, n.value.items, [], 0, depth);
  }

  lemma {:induction false} MemberUpToOrder(m: Member, n: Member, f: Fields, depth: nat, expectGroup: bool)
    requires m.key == n.key && SameUpToOrder(m.value, n.value)
    ensures WithMember(f, m, depth, expectGroup) == WithMember(f, n, depth, expectGroup)
    decreases m, 2
  {
    if m.value.JArray? {
      forall i | 0 <= i < |m.value.items|
        ensures TextOf(m.value.items[i]) == TextOf(n.value.items[i])
        ensures RuleOf(m.value.items[i], depth + 1, false) == RuleOf(n.value.items[i], depth + 1, false)
      {
        KeyOrderDoesNotMatter(m.value.items[i], n.value.items[i], depth + 1, false);
      }
      ArraysAlike(m, n, f, depth, expectGroup);
    }
  }

  lemma {:induction false} MembersUpToOrder(a: seq<Member>, b: seq<Member>, f: Fields, depth: nat, expectGroup: bool)
    requires |a| == |b|
    requires forall i :: 0 <= i < |a| ==> a[i].key == b[i].key && SameUpToOrder(a[i].value, b[i].value)
    ensures FieldsOf(a, f, depth, expectGroup) == FieldsOf(b, f, depth, expectGroup)
    decreases a, 0
  {
    if a != [] {
      MemberUpToOrder(a[0], b[0], f, depth, expectGroup);
      match WithMember(f, a[0], depth, expectGroup)
      case Some(f') => MembersUpToOrder(a[1..], b[1..], f', depth, expectGroup);
      case None =>
    }
  }

  /** What a JSON value is read as does not depend on the order of the keys, at any depth. */
  lemma {:induction false} KeyOrderDoesNotMatter(a: Json, b: Json, depth: nat, expectGroup: bool)
    requires SameUpToOrder(a, b)
    ensures RuleOf(a, depth, expectGroup) == RuleOf(b, depth, expectGroup)
    decreases a, 1
  {
    if a.JObject? {
      var ordered: seq<Member> :|
        && multiset(ordered) == multiset(b.members) && |ordered| == |a.members|
        && forall i :: 0 <= i < |a.members| ==>
             a.members[i].key == ordered[i].key && SameUpToOrder(a.members[i].value, ordered[i].value);
      MembersUpToOrder(a.members, ordered, NO_FIELDS, depth, expectGroup);
      OrderOfMembers(ordered, b.members, NO_FIELDS, depth, expectGroup);
    }
  }
}
