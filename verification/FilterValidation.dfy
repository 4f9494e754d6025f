/** The validator of filters (core/filters.go:569-592, core/filters.go:728-1012). */
module FilterValidation {
  import opened Prelude
  import opened Strings
  import opened FilterNumbers
  import opened Schemas
  import opened FilterSyntax

  // ---- Properties by path ------------------------------------------------------------------------------------

  /** A property and the number of names of the path that lead to it. */
  datatype Resolved = Resolved(property: Property, names: nat)

  /** The property that a path leads to or, if the path continues inside a JSON property, that property. */
  function Resolve(properties: seq<Property>, names: seq<string>): Option<Resolved>
    decreases names
  {
    if names == [] then None
    else
      match ByName(properties, names[0])
      case None => None
      case Some(p) =>
        if |names| == 1 || p.typ.JSONType? then Some(Resolved(p, 1))
        else if p.typ.ObjectType? then
          match Resolve(p.typ.properties, names[1..])
          case Some(r) => Some(Resolved(r.property, r.names + 1))
          case None => None
        else None
  }

  lemma {:induction false} ResolvedNames(properties: seq<Property>, names: seq<string>)
    ensures Resolve(properties, names).Some? ==> 1 <= Resolve(properties, names).value.names <= |names|
    decreases names
  {
    if names != [] && ByName(properties, names[0]).Some? {
      var p := ByName(properties, names[0]).value;
      if |names| > 1 && p.typ.ObjectType? { ResolvedNames(p.typ.properties, names[1..]); }
    }
  }

  // ---- Operands -----------------------------------------------------------------------------------------------

  /** The parsers of operands that this model does not look into: each accepts a string or not, and
      yields a value of which nothing is known. `ip` yields the normal form of an address. */
  datatype Library = Library(
    float: string -> Option<nat>, decimal: string -> Option<nat>,
    dateTime: string -> Option<nat>, date: string -> Option<nat>, time: string -> Option<nat>,
    ip: string -> Option<string>)

  /** A parsed operand. A JSON operand keeps its text, and the number it contains if it is one. */
  datatype Operand =
    | OText(text: string) | OBool(value: bool) | OInt(integer: int) | OUint(natural: nat)
    | OFloat(float: nat) | ODecimal(decimal: nat) | OTime(time: nat)
    | OJson(json: string, number: Option<nat>)

  predicate IsHex(c: char) { IsDigit(c) || 'a' <= c <= 'f' || 'A' <= c <= 'F' }

  function Lower(c: char): char { if 'A' <= c <= 'Z' then (c as nat + 32) as char else c }

  predicate IsDash(i: nat) { i == 8 || i == 13 || i == 18 || i == 23 }

  /** The standard form of a UUID, in lower case. */
  function NormalizeUUID(s: string): Option<string> {
    if |s| == 36 && forall i :: 0 <= i < 36 ==> if IsDash(i) then s[i] == '-' else IsHex(s[i])
    then Some(seq(36, i requires 0 <= i < 36 => Lower(s[i]))) else None
  }

  lemma NormalizeUUIDIsIdempotent(s: string)
    ensures NormalizeUUID(s).Some? ==> NormalizeUUID(NormalizeUUID(s).value) == NormalizeUUID(s)
  {
    if NormalizeUUID(s).Some? {
      var t := NormalizeUUID(s).value;
      forall i | 0 <= i < 36 ensures (if IsDash(i) then t[i] == '-' else IsHex(t[i])) && Lower(t[i]) == t[i] {
        assert if IsDash(i) then s[i] == '-' else IsHex(s[i]);
      }
      assert seq(36, i requires 0 <= i < 36 => Lower(t[i])) == t;
    }
  }

  function MapOption<T, U>(o: Option<T>, f: T -> U): Option<U> {
    match o case Some(v) => Some(f(v)) case None => None
  }

  /** The operand that a value denotes for a (non-array) type; None if it denotes none. */
  function ParseOperand(lib: Library, t: Type, v: string): Option<Operand> {
    match t
    case StringType(_) => Some(OText(v))
    case IntType(unsigned) =>
      if unsigned then MapOption(Unsigned(v), n => OUint(n)) else MapOption(Signed(v), n => OInt(n))
    case FloatType => MapOption(lib.float(v), n => OFloat(n))
    case DecimalType(_) => MapOption(lib.decimal(v), n => ODecimal(n))
    case DateTimeType => MapOption(lib.dateTime(v), n => OTime(n))
    case DateType => MapOption(lib.date(v), n => OTime(n))
    case TimeType => MapOption(lib.time(v), n => OTime(n))
    case YearType => MapOption(Year(v), n => OInt(n))
    case UUIDType => MapOption(NormalizeUUID(v), u => OText(u))
    case IPType => MapOption(lib.ip(v), a => OText(a))
    case JSONType => Some(OJson(v, lib.decimal(v)))
    case _ => None
  }

  // ---- Operators ---------------------------------------------------------------------------------------------------

  /** All the operators, in their order. */
  const OPERATORS: seq<string> := [
    "is", "is not", "is less than", "is less than or equal to", "is greater than", "is greater than or equal to",
    "is between", "is not between", "contains", "does not contain", "is one of", "is not one of", "starts with",
    "ends with", "is before", "is on or before", "is after", "is on or after", "is true", "is false", "is empty",
    "is not empty", "is null", "is not null", "exists", "does not exist"]

  predicate IsOrdered(op: string) {
    op == "is less than" || op == "is less than or equal to" || op == "is greater than" || op == "is greater than or equal to"
  }

  predicate IsRange(op: string) { op == "is between" || op == "is not between" }

  predicate IsList(op: string) { op == "is one of" || op == "is not one of" }

  predicate IsTemporal(op: string) { op == "is before" || op == "is after" || op == "is on or before" || op == "is on or after" }

  predicate TakesNoValue(op: string) {
    || op == "is true" || op == "is false" || op == "is empty" || op == "is not empty"
    || op == "is null" || op == "is not null" || op == "exists" || op == "does not exist"
  }

  predicate IsContainer(t: Type) { t.ArrayType? || t.ObjectType? || t.MapType? }

  predicate FreeString(t: Type) { t.StringType? && t.values.None? }

  /** The operator can be used with the property; `inside` is whether the path continues inside it. */
  predicate OperatorAllowed(op: string, p: Property, inside: bool) {
    var t := p.typ;
    if op !in OPERATORS then false
    else if op == "is" || op == "is not" then !t.BooleanType? && !IsContainer(t)
    else if IsRange(op) then
      (if t.StringType? then t.values.None? else !t.BooleanType? && !t.UUIDType? && !t.IPType? && !IsContainer(t))
    else if IsList(op) then !t.BooleanType? && !t.UUIDType? && !t.IPType? && !IsContainer(t)
    else if IsOrdered(op) then FreeString(t) || t.IntType? || t.FloatType? || t.DecimalType? || t.JSONType?
    else if op == "contains" || op == "does not contain" then
      t.StringType? || t.JSONType? || (t.ArrayType? && !t.elem.BooleanType? && !IsContainer(t.elem))
    else if op == "starts with" || op == "ends with" then FreeString(t) || t.JSONType?
    else if IsTemporal(op) then t.DateTimeType? || t.DateType? || t.TimeType? || t.YearType?
    else if op == "is true" || op == "is false" then t.BooleanType? || t.JSONType?
    else if op == "is empty" || op == "is not empty" then
      (if t.StringType? then t.values.None? || t.values.value == [] || "" in t.values.value
       else t.JSONType? || t.ArrayType? || t.MapType?)
    else if op == "is null" || op == "is not null" then p.nullable || t.JSONType?
    else p.readOptional || inside  // "exists" and "does not exist"
  }

  /** The number of values fits the operator; null and empty values differ. */
  predicate ArityFits(op: string, values: Option<seq<string>>) {
    if TakesNoValue(op) then values.None?
    else
      var n := if values.Some? then |values.value| else 0;
      if IsRange(op) then n == 2 else if IsList(op) then n > 0 else n == 1
  }

  const MAX_VALUE_LENGTH := 80

  /** A value is not empty, not too long and free of the NUL character. */
  predicate ValidText(v: string) { 0 < |v| <= MAX_VALUE_LENGTH && '\0' !in v }

  function ElementType(t: Type): Type { if t.ArrayType? then t.elem else t }

  /** A value suits the type: one of the allowed values, or a valid operand. */
  predicate ValueFits(lib: Library, t: Type, v: string) {
    if t.StringType? && t.values.Some? then v in t.values.value
    else ValidText(v) && ParseOperand(lib, ElementType(t), v).Some?
  }

  /** What a filter is validated for. */
  datatype Context = Context(lib: Library, properties: seq<Property>, disallowJSON: bool)

  function ResolvePath(c: Context, path: string): Option<Resolved> { Resolve(c.properties, Split(path)) }

  function SchemaPath(path: string, names: nat): string
    requires 1 <= names <= |Split(path)|
  {
    Join(Split(path)[..names])
  }

  /** A condition is valid if its property exists and can be filtered on, if the operator applies to the type of the
      property, and if there are as many values as the operator takes, each of them one of that type. */
  predicate ConditionValid(c: Context, r: Rule)
    requires r.Condition?
  {
    && ValidPath(r.property)
    && ResolvePath(c, r.property).Some?
    && var found := ResolvePath(c, r.property).value;
       var p := found.property;
    && !(c.disallowJSON && p.typ.JSONType?)
    && OperatorAllowed(r.operator, p, found.names < |Split(r.property)|)
    && ArityFits(r.operator, r.values)
    && (r.values.Some? ==> forall i :: 0 <= i < |r.values.value| ==> ValueFits(c.lib, p.typ, r.values.value[i]))
  }

  /** The schema path of a condition's property. */
  function PathOf(c: Context, r: Rule): string
    requires r.Condition? && ConditionValid(c, r)
  {
    ResolvedNames(c.properties, Split(r.property));
    SchemaPath(r.property, ResolvePath(c, r.property).value.names)
  }

  /** The path of a condition, if the condition is valid. */
  type Checker = Rule -> Option<string>

  function ConditionChecker(c: Context): Checker {
    (r: Rule) => if r.Condition? && ConditionValid(c, r) then Some(PathOf(c, r)) else None
  }

  /** Apart from the limits: operators are "and" or "or", groups are not empty, conditions are valid. */
  predicate TreeValid(check: Checker, r: Rule)
    decreases r, 1
  {
    match r
    case Group(operator, rules) => (operator == "and" || operator == "or") && rules != [] && TreesValid(check, rules)
    case Condition(_, _, _) => check(r).Some?
  }

  predicate TreesValid(check: Checker, rules: seq<Rule>)
    decreases rules, 0
  {
    rules == [] || (TreeValid(check, rules[0]) && TreesValid(check, rules[1..]))
  }

  /** The schema paths of all the conditions. */
  function PathsOf(check: Checker, r: Rule): set<string>
    requires TreeValid(check, r)
    decreases r, 1
  {
    match r
    case Group(_, rules) => PathsOfAll(check, rules)
    case Condition(_, _, _) => {check(r).value}
  }

  function PathsOfAll(check: Checker, rules: seq<Rule>): set<string>
    requires TreesValid(check, rules)
    decreases rules, 0
  {
    if rules == [] then {} else PathsOf(check, rules[0]) + PathsOfAll(check, rules[1..])
  }

  // ---- The validator ----------------------------------------------------------------------------------------------

  lemma {:induction false} SplitRules(a: seq<Rule>, r: Rule)
    ensures CountAll(a + [r]) == CountAll(a) + 1 + Count(r)
    ensures LevelsAll(a + [r]) == if LevelsAll(a) < Levels(r) then Levels(r) else LevelsAll(a)
  {
    if a == [] {
      assert a + [r] == [r] && [r][1..] == [];
    } else {
      assert (a + [r])[1..] == a[1..] + [r];
      SplitRules(a[1..], r);
    }
  }

  lemma {:induction false} SplitValid(check: Checker, a: seq<Rule>, b: seq<Rule>)
    ensures TreesValid(check, a + b) <==> TreesValid(check, a) && TreesValid(check, b)
    ensures TreesValid(check, a + b) ==> PathsOfAll(check, a + b) == PathsOfAll(check, a) + PathsOfAll(check, b)
  {
    if a == [] {
      assert a + b == b;
    } else {
      assert (a + b)[1..] == a[1..] + b;
      SplitValid(check, a[1..], b);
    }
  }

  lemma OneTree(check: Checker, r: Rule)
    ensures TreesValid(check, [r]) <==> TreeValid(check, r)
    ensures TreeValid(check, r) ==> PathsOfAll(check, [r]) == PathsOf(check, r)
  {
    assert [r][1..] == [];
  }

  lemma {:induction false} SplitLimits(a: seq<Rule>, b: seq<Rule>)
    ensures CountAll(a + b) == CountAll(a) + CountAll(b)
    ensures LevelsAll(a + b) == if LevelsAll(a) < LevelsAll(b) then LevelsAll(b) else LevelsAll(a)
  {
    if a == [] {
      assert a + b == b;
    } else {
      assert (a + b)[1..] == a[1..] + b;
      SplitLimits(a[1..], b);
    }
  }

  /** One more rule of a group, and what it means for all of them. */
  lemma NextRule(check: Checker, rules: seq<Rule>, i: nat)
    requires i < |rules|
    ensures CountAll(rules[..i + 1]) == CountAll(rules[..i]) + 1 + Count(rules[i]) <= CountAll(rules)
    ensures LevelsAll(rules[..i + 1]) == if LevelsAll(rules[..i]) < Levels(rules[i]) then Levels(rules[i]) else LevelsAll(rules[..i])
    ensures LevelsAll(rules[..i + 1]) <= LevelsAll(rules)
    ensures TreesValid(check, rules[..i + 1]) <==> TreesValid(check, rules[..i]) && TreeValid(check, rules[i])
    ensures TreesValid(check, rules) ==> TreesValid(check, rules[..i + 1])
    ensures TreesValid(check, rules[..i + 1]) ==> PathsOfAll(check, rules[..i + 1]) == PathsOfAll(check, rules[..i]) + PathsOf(check, rules[i])
  {
    assert rules[..i + 1] == rules[..i] + [rules[i]];
    SplitRules(rules[..i], rules[i]);
    SplitValid(check, rules[..i], [rules[i]]);
    OneTree(check, rules[i]);
    assert rules == rules[..i + 1] + rules[i + 1..];
    SplitLimits(rules[..i + 1], rules[i + 1..]);
    SplitValid(check, rules[..i + 1], rules[i + 1..]);
  }

  function Elements(paths: seq<string>): set<string> { set path | path in paths }

  lemma PathInserted(paths: seq<string>, i: nat, path: string)
    requires i <= |paths| && Sorted(paths)
    requires forall j :: 0 <= j < i ==> Less(paths[j], path)
    requires forall j :: i <= j < |paths| ==> Less(path, paths[j])
    ensures Sorted(paths[..i] + [path] + paths[i..])
    ensures Elements(paths[..i] + [path] + paths[i..]) == Elements(paths) + {path}
  {
    var longer := paths[..i] + [path] + paths[i..];
    assert forall j :: 0 <= j < |longer| ==> longer[j] == if j < i then paths[j] else if j == i then path else paths[j - 1];
    assert paths == paths[..i] + paths[i..];
    assert forall q :: q in longer <==> q in paths[..i] || q == path || q in paths[i..];
  }

  /** The state shared while a filter tree is validated. */
  class FilterValidator {
    const check: Checker
    var paths: seq<string>
    var ruleCount: nat

    constructor (check: Checker)
      ensures this.check == check && paths == [] && ruleCount == 0
    {
      this.check := check;
      paths, ruleCount := [], 0;
    }

    /** The paths collected so far, strictly sorted. */
    ghost predicate Valid()
      reads this
    {
      Sorted(paths)
    }

    /** Finds where a path is, or belongs, in the sorted paths, by bisection. */
    method Search(path: string) returns (i: nat, found: bool)
      requires Valid()
      ensures i <= |paths| && (found <==> path in paths) && (found ==> i < |paths| && paths[i] == path)
      ensures forall j :: 0 <= j < i ==> Less(paths[j], path)
      ensures !found ==> forall j :: i <= j < |paths| ==> Less(path, paths[j])
    {
      var lo, hi := 0, |paths|;
      while lo < hi
        invariant 0 <= lo <= hi <= |paths|
        invariant forall j :: 0 <= j < lo ==> Less(paths[j], path)
        invariant forall j :: hi <= j < |paths| ==> !Less(paths[j], path)
      {
        var mid := (lo + hi) / 2;
        if Less(paths[mid], path) {
          forall j | 0 <= j < mid ensures Less(paths[j], path) { LessTransitive(paths[j], paths[mid], path); }
          lo := mid + 1;
        } else {
          forall j | mid < j < |paths| ensures !Less(paths[j], path) {
            if Less(paths[j], path) { LessTransitive(paths[mid], paths[j], path); }
          }
          hi := mid;
        }
      }
      i := lo;
      found := i < |paths| && paths[i] == path;
      forall j | 0 <= j < |paths| ensures (j < i ==> paths[j] != path) && (j >= i ==> paths[j] == path || Less(path, paths[j])) {
        LessTotal(paths[j], path);
      }
      forall j | i < j < |paths| ensures paths[j] != path { LessTotal(paths[i], path); LessTotal(paths[j], path); }
    }

    /** Adds a path, unless it is there already. */
    method Collect(path: string)
      requires Valid()
      modifies this`paths
      ensures Valid()
      ensures Elements(paths) == Elements(old(paths)) + {path}
    {
      var i, found := Search(path);
      if !found {
        PathInserted(paths, i, path);
        paths := paths[..i] + [path] + paths[i..];
      } else {
        assert path in Elements(paths);
      }
    }

    /** Validates a group at a depth: the depth on the way down, the count as rules are met. */
    method ValidateGroup(r: Rule, depth: nat) returns (ok: bool)
      requires r.Group? && depth >= 1
      requires Valid() && ruleCount <= MAX_RULES
      modifies this
      ensures Valid()
      ensures ok <==> TreeValid(check, r) && depth + Levels(r) <= MAX_DEPTH + 1 && old(ruleCount) + Count(r) <= MAX_RULES
      ensures ok ==> ruleCount == old(ruleCount) + Count(r)
      ensures ok ==> Elements(paths) == Elements(old(paths)) + PathsOf(check, r)
      decreases r, 0
    {
      if depth > MAX_DEPTH {
        return false;
      }
      if r.operator != "and" && r.operator != "or" {
        return false;
      }
      if |r.rules| == 0 {
        return false;
      }
      ghost var start, before := ruleCount, paths;
      assert r.rules[..0] == [];
      for i := 0 to |r.rules|
        invariant Valid() && ruleCount <= MAX_RULES
        invariant TreesValid(check, r.rules[..i])
        invariant depth + 1 + LevelsAll(r.rules[..i]) <= MAX_DEPTH + 1
        invariant ruleCount == start + CountAll(r.rules[..i])
        invariant Elements(paths) == Elements(before) + PathsOfAll(check, r.rules[..i])
      {
        NextRule(check, r.rules, i);
        var valid := ValidateRule(r.rules[i], depth);
        if !valid {
          return false;
        }
      }
      assert r.rules[..|r.rules|] == r.rules;
      return true;
    }

    /** Validates a rule of a group at a depth. */
    method ValidateRule(rule: Rule, depth: nat) returns (ok: bool)
      requires 1 <= depth <= MAX_DEPTH
      requires Valid() && ruleCount <= MAX_RULES
      modifies this
      ensures Valid()
      ensures ok <==>
        TreeValid(check, rule) && depth + 1 + Levels(rule) <= MAX_DEPTH + 1 && old(ruleCount) + 1 + Count(rule) <= MAX_RULES
      ensures ok ==> ruleCount == old(ruleCount) + 1 + Count(rule)
      ensures ok ==> Elements(paths) == Elements(old(paths)) + PathsOf(check, rule)
      decreases rule, 1
    {
      ruleCount := ruleCount + 1;
      if ruleCount > MAX_RULES {
        return false;
      }
      if rule.Group? {
        ok := ValidateGroup(rule, depth + 1);
        return;
      }
      var path := check(rule);
      if path.None? {
        return false;
      }
      Collect(path.value);
      return true;
    }
  }

  /** Validates a filter. It is accepted exactly when its tree is valid and within the limits, and the
      paths returned are then the strictly sorted set of the paths of its conditions. */
  method ValidateFilter(context: Context, filter: Rule) returns (ok: bool, paths: seq<string>)
    requires filter.Group?
    ensures ok <==> TreeValid(ConditionChecker(context), filter) && WithinLimits(filter, 1)
    ensures ok ==> Sorted(paths) && Elements(paths) == PathsOf(ConditionChecker(context), filter)
  {
    var validator := new FilterValidator(ConditionChecker(context));
    ok := validator.ValidateGroup(filter, 1);
    paths := validator.paths;
  }

  /** On size and depth the parser, counting bottom-up and testing the depth at each "rules" key, rejects
      exactly the groups that the validator, counting in pre-order and testing on the way down, rejects:
      those that `ValidateFilter` finds outside the limits. */
  lemma LimitsAgree(r: Rule)
    requires r.Group?
    ensures RuleOf(Printed(r), 1, true).Some? <==> WithinLimits(r, 1)
    ensures WithinLimits(r, 1) ==> RuleOf(Printed(r), 1, true) == Some((r, Count(r)))
  {
    RoundTrip(r, 1, true);
  }
}
