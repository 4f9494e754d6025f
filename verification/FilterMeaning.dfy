/** What filters mean, and that their stored form means the same (core/filters.go:72-98, core/filters.go:178-267,
    core/internal/filters/applies.go:17-110, core/internal/state/where.go:26-75, core/internal/state/where.go:151-183). */
module FilterMeaning {
  import opened Prelude
  import opened Strings
  import opened FilterSyntax
  import opened Schemas
  import opened FilterValidation
  import opened FilterWhere

  // ---- Conditions --------------------------------------------------------------------------------------------------

  /** What conditions are made of: tests of the attribute at a path. */
  datatype Test =
    | Is | Less | LessOrEqual | Greater | GreaterOrEqual | Between | Contains | OneOf | StartsWith | EndsWith
    | Before | OnOrBefore | After | OnOrAfter | IsTrue | IsFalse | Empty | IsNull | Exists

  /** Which tests the attributes pass, for a path and the parsed operands. */
  type Attributes = (Test, seq<string>, seq<Operand>) -> bool

  /** What the words of a condition say. */
  predicate Says(a: Attributes, operator: string, property: seq<string>, values: seq<Operand>) {
    if operator == "is" then a(Is, property, values)
    else if operator == "is not" then !a(Is, property, values)
    else if operator == "is less than" then a(Less, property, values)
    else if operator == "is less than or equal to" then a(LessOrEqual, property, values)
    else if operator == "is greater than" then a(Greater, property, values)
    else if operator == "is greater than or equal to" then a(GreaterOrEqual, property, values)
    else if operator == "is between" then a(Between, property, values)
    else if operator == "is not between" then !a(Between, property, values)
    else if operator == "contains" then a(Contains, property, values)
    else if operator == "does not contain" then !a(Contains, property, values)
    else if operator == "is one of" then a(OneOf, property, values)
    else if operator == "is not one of" then !a(OneOf, property, values)
    else if operator == "starts with" then a(StartsWith, property, values)
    else if operator == "ends with" then a(EndsWith, property, values)
    else if operator == "is before" then a(Before, property, values)
    else if operator == "is on or before" then a(OnOrBefore, property, values)
    else if operator == "is after" then a(After, property, values)
    else if operator == "is on or after" then a(OnOrAfter, property, values)
    else if operator == "is true" then a(IsTrue, property, values)
    else if operator == "is false" then a(IsFalse, property, values)
    else if operator == "is empty" then a(Empty, property, values)
    else if operator == "is not empty" then !a(Empty, property, values)
    else if operator == "is null" then a(Exists, property, values) && a(IsNull, property, values)
    else if operator == "is not null" then !(a(Exists, property, values) && a(IsNull, property, values))
    else if operator == "exists" then a(Exists, property, values)
    else if operator == "does not exist" then !a(Exists, property, values)
    else false
  }

  /** The operators of the stored form, in the order of their numbers. */
  datatype Stored =
    | OpIs | OpIsNot | OpIsLessThan | OpIsLessThanOrEqualTo | OpIsGreaterThan | OpIsGreaterThanOrEqualTo
    | OpIsBetween | OpIsNotBetween | OpContains | OpDoesNotContain | OpIsOneOf | OpIsNotOneOf | OpStartsWith
    | OpEndsWith | OpIsBefore | OpIsOnOrBefore | OpIsAfter | OpIsOnOrAfter | OpIsTrue | OpIsFalse | OpIsEmpty
    | OpIsNotEmpty | OpIsNull | OpIsNotNull | OpExists | OpDoesNotExist

  const STORED: seq<Stored> := [
    OpIs, OpIsNot, OpIsLessThan, OpIsLessThanOrEqualTo, OpIsGreaterThan, OpIsGreaterThanOrEqualTo,
    OpIsBetween, OpIsNotBetween, OpContains, OpDoesNotContain, OpIsOneOf, OpIsNotOneOf, OpStartsWith,
    OpEndsWith, OpIsBefore, OpIsOnOrBefore, OpIsAfter, OpIsOnOrAfter, OpIsTrue, OpIsFalse, OpIsEmpty,
    OpIsNotEmpty, OpIsNull, OpIsNotNull, OpExists, OpDoesNotExist]

  /** The evaluation of a stored condition. */
  predicate AppliesCondition(a: Attributes, operator: Stored, property: seq<string>, values: seq<Operand>) {
    match operator
    case OpIs => a(Is, property, values)
    case OpIsNot => !a(Is, property, values)
    case OpIsLessThan => a(Less, property, values)
    case OpIsLessThanOrEqualTo => a(LessOrEqual, property, values)
    case OpIsGreaterThan => a(Greater, property, values)
    case OpIsGreaterThanOrEqualTo => a(GreaterOrEqual, property, values)
    case OpIsBetween => a(Between, property, values)
    case OpIsNotBetween => !a(Between, property, values)
    case OpContains => a(Contains, property, values)
    case OpDoesNotContain => !a(Contains, property, values)
    case OpIsOneOf => a(OneOf, property, values)
    case OpIsNotOneOf => !a(OneOf, property, values)
    case OpStartsWith => a(StartsWith, property, values)
    case OpEndsWith => a(EndsWith, property, values)
    case OpIsBefore => a(Before, property, values)
    case OpIsOnOrBefore => a(OnOrBefore, property, values)
    case OpIsAfter => a(After, property, values)
    case OpIsOnOrAfter => a(OnOrAfter, property, values)
    case OpIsTrue => a(IsTrue, property, values)
    case OpIsFalse => a(IsFalse, property, values)
    case OpIsEmpty => a(Empty, property, values)
    case OpIsNotEmpty => !a(Empty, property, values)
    case OpIsNull => a(Exists, property, values) && a(IsNull, property, values)
    case OpIsNotNull => !(a(Exists, property, values) && a(IsNull, property, values))
    case OpExists => a(Exists, property, values)
    case OpDoesNotExist => !a(Exists, property, values)
  }

  lemma FirstOperatorsAgree(a: Attributes, i: nat, property: seq<string>, values: seq<Operand>)
    requires i < 14
    ensures AppliesCondition(a, STORED[i], property, values) <==> Says(a, OPERATORS[i], property, values)
  {
  }

  lemma MiddleOperatorsAgree(a: Attributes, i: nat, property: seq<string>, values: seq<Operand>)
    requires 14 <= i < 20
    ensures AppliesCondition(a, STORED[i], property, values) <==> Says(a, OPERATORS[i], property, values)
  {
  }

  lemma LastOperatorsAgree(a: Attributes, i: nat, property: seq<string>, values: seq<Operand>)
    requires 20 <= i < 26
    ensures AppliesCondition(a, STORED[i], property, values) <==> Says(a, OPERATORS[i], property, values)
  {
  }

  /** The number under which an operator is stored is that of the operator that the evaluation takes it for. */
  lemma OperatorsAgree(a: Attributes, i: nat, property: seq<string>, values: seq<Operand>)
    requires i < |OPERATORS|
    ensures |STORED| == |OPERATORS|
    ensures AppliesCondition(a, STORED[i], property, values) <==> Says(a, OPERATORS[i], property, values)
  {
    if i < 14 {
      FirstOperatorsAgree(a, i, property, values);
    } else if i < 20 {
      MiddleOperatorsAgree(a, i, property, values);
    } else {
      LastOperatorsAgree(a, i, property, values);
    }
  }

  // ---- Groups ------------------------------------------------------------------------------------------------------

  /** The operands of a condition: what its values denote for the type of its property. */
  ghost predicate Denote(c: Context, r: Rule, operands: seq<Operand>)
    requires r.Condition? && ResolvePath(c, r.property).Some?
  {
    var values := if r.values.Some? then r.values.value else [];
    && |operands| == |values|
    && forall i :: 0 <= i < |values| ==>
         ParseOperand(c.lib, ElementType(ResolvePath(c, r.property).value.property.typ), values[i]) == Some(operands[i])
  }

  /** What a filter says: "and" is all of its rules, "or" is some of them. */
  ghost predicate Holds(c: Context, a: Attributes, r: Rule)
    decreases r
  {
    match r
    case Group(operator, rules) =>
      if operator == "and" then forall i :: 0 <= i < |rules| ==> Holds(c, a, rules[i])
      else exists i :: 0 <= i < |rules| && Holds(c, a, rules[i])
    case Condition(property, operator, _) =>
      ResolvePath(c, property).Some? && exists operands :: Denote(c, r, operands) && Says(a, operator, Split(property), operands)
  }

  /** What a stored filter selects. */
  ghost predicate Selects(a: Attributes, w: Where)
    decreases w
  {
    match w
    case WhereGroup(And, rules) => forall i :: 0 <= i < |rules| ==> Selects(a, rules[i])
    case WhereGroup(Or, rules) => exists i :: 0 <= i < |rules| && Selects(a, rules[i])
    case WhereCondition(property, operator, values) =>
      operator < |STORED| && AppliesCondition(a, STORED[operator], property, values)
  }

  /** The evaluation: the first rule that decides ends the loop. */
  method Applies(a: Attributes, w: Where) returns (applies: bool)
    requires w.WhereGroup?
    ensures applies <==> Selects(a, w)
    decreases w
  {
    for i := 0 to |w.rules|
      invariant w.logical.And? ==> forall k :: 0 <= k < i ==> Selects(a, w.rules[k])
      invariant w.logical.Or? ==> forall k :: 0 <= k < i ==> !Selects(a, w.rules[k])
    {
      var rule := w.rules[i];
      var one: bool;
      if rule.WhereGroup? {
        one := Applies(a, rule);
      } else {
        one := rule.operator < |STORED| && AppliesCondition(a, STORED[rule.operator], rule.property, rule.values);
      }
      if one && w.logical.Or? {
        return true;
      }
      if !one && w.logical.And? {
        return false;
      }
    }
    if w.logical.Or? {
      return false;
    }
    return true;
  }

  // ---- The stored form means the same --------------------------------------------------------------------------------

  lemma ConditionMeansTheSame(c: Context, a: Attributes, r: Rule)
    requires r.Condition? && ConditionValid(c, r)
    ensures ToWhere(c, r).Converted? && ToWhere(c, r).value.WhereCondition?
    ensures ToWhere(c, r).value.property == Split(r.property) && Denote(c, r, ToWhere(c, r).value.values)
    ensures Selects(a, ToWhere(c, r).value) <==> Holds(c, a, r)
  {
    ConditionConverts(c, r);
    ValidOperator(c, r);
    var w := ToWhere(c, r).value;
    var values := if r.values.Some? then r.values.value else [];
    FittingValuesConvert(c.lib, ResolvePath(c, r.property).value.property.typ, values);
    OperatorsAgree(a, w.operator, w.property, w.values);
    assert Denote(c, r, w.values);
    forall operands | Denote(c, r, operands) ensures operands == w.values {
      assert forall i :: 0 <= i < |values| ==> operands[i] == w.values[i];
    }
  }

  /** Every accepted filter is stored as what selects exactly the attributes of which the filter holds. */
  lemma {:induction false} StoredMeansTheSame(c: Context, a: Attributes, r: Rule)
    requires TreeValid(ConditionChecker(c), r)
    ensures ToWhere(c, r).Converted?
    ensures Selects(a, ToWhere(c, r).value) <==> Holds(c, a, r)
    decreases r, 1
  {
    match r
    case Condition(_, _, _) => ConditionMeansTheSame(c, a, r);
    case Group(operator, rules) =>
      RulesMeanTheSame(c, a, rules);
      var wheres := ToWheres(c, rules).value;
      assert forall i :: 0 <= i < |rules| ==> (Selects(a, wheres[i]) <==> Holds(c, a, rules[i]));
  }

  lemma {:induction false} RulesMeanTheSame(c: Context, a: Attributes, rules: seq<Rule>)
    requires TreesValid(ConditionChecker(c), rules)
    ensures ToWheres(c, rules).Converted? && |ToWheres(c, rules).value| == |rules|
    ensures forall i :: 0 <= i < |rules| ==> (Selects(a, ToWheres(c, rules).value[i]) <==> Holds(c, a, rules[i]))
    decreases rules, 0
  {
    if rules != [] {
      StoredMeansTheSame(c, a, rules[0]);
      RulesMeanTheSame(c, a, rules[1..]);
      forall i | 0 < i < |rules| ensures Selects(a, ToWheres(c, rules).value[i]) <==> Holds(c, a, rules[i]) {
        assert ToWheres(c, rules).value[i] == ToWheres(c, rules[1..]).value[i - 1] && rules[1..][i - 1] == rules[i];
      }
    }
  }
}
