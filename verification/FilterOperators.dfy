/** Which conditions are accepted, said by the type of the property: the operators that the type supports, and the values
    that they take (core/filters.go:742-960). */
module FilterOperators {
  import opened Prelude
  import opened Strings
  import opened FilterNumbers
  import opened FilterSyntax
  import opened Schemas
  import opened FilterValidation
  import opened FilterMeaning

  const EQUALITY := {OpIs, OpIsNot}
  const ORDER := {OpIsLessThan, OpIsLessThanOrEqualTo, OpIsGreaterThan, OpIsGreaterThanOrEqualTo}
  const RANGE := {OpIsBetween, OpIsNotBetween}
  const PARTS := {OpContains, OpDoesNotContain}
  const LISTS := {OpIsOneOf, OpIsNotOneOf}
  const ENDS := {OpStartsWith, OpEndsWith}
  const TIMES := {OpIsBefore, OpIsOnOrBefore, OpIsAfter, OpIsOnOrAfter}
  const TRUTH := {OpIsTrue, OpIsFalse}
  const EMPTINESS := {OpIsEmpty, OpIsNotEmpty}
  const NULLNESS := {OpIsNull, OpIsNotNull}
  const EXISTENCE := {OpExists, OpDoesNotExist}

  /** The operators that a type supports. A string with allowed values can only be compared with these. */
  function Supported(t: Type): set<Stored> {
    match t
    case BooleanType => TRUTH
    case IntType(_) => EQUALITY + ORDER + RANGE + LISTS
    case FloatType => EQUALITY + ORDER + RANGE + LISTS
    case DecimalType(_) => EQUALITY + ORDER + RANGE + LISTS
    case DateTimeType => EQUALITY + RANGE + LISTS + TIMES
    case DateType => EQUALITY + RANGE + LISTS + TIMES
    case TimeType => EQUALITY + RANGE + LISTS + TIMES
    case YearType => EQUALITY + RANGE + LISTS + TIMES
    case UUIDType => EQUALITY
    case IPType => EQUALITY
    case JSONType => EQUALITY + ORDER + RANGE + PARTS + LISTS + ENDS + TRUTH + EMPTINESS + NULLNESS
    case StringType(None) => EQUALITY + ORDER + RANGE + PARTS + LISTS + ENDS + EMPTINESS
    case StringType(Some(values)) =>
      EQUALITY + PARTS + LISTS + if values == [] || "" in values then EMPTINESS else {}
    case ArrayType(elem) => (if OpIs in Supported(elem) then PARTS else {}) + EMPTINESS
    case MapType(_) => EMPTINESS
    case ObjectType(_) => {}
  }

  /** Those that the property supports: "null" if it can be, existence if it is optional or the path goes on inside it. */
  function SupportedBy(p: Property, inside: bool): set<Stored> {
    Supported(p.typ) + (if p.nullable then NULLNESS else {}) + (if p.readOptional || inside then EXISTENCE else {})
  }

  /** How many values an operator takes; those that take none have no list at all. */
  predicate Takes(operator: Stored, values: Option<seq<string>>) {
    if operator in TRUTH + EMPTINESS + NULLNESS + EXISTENCE then values == None
    else if operator in RANGE then values.Some? && |values.value| == 2
    else if operator in LISTS then values.Some? && |values.value| >= 1
    else values.Some? && |values.value| == 1
  }

  /** A value: an allowed one or, where any is, one of the type of the property or of its elements. */
  predicate Fits(lib: Library, t: Type, v: string) {
    if t.StringType? && t.values.Some? then v in t.values.value
    else 1 <= |v| <= 80 && (forall i :: 0 <= i < |v| ==> v[i] != '\0')
         && ParseOperand(lib, if t.ArrayType? then t.elem else t, v).Some?
  }

  // ---- The switches are the table ------------------------------------------------------------------------------------

  /** The words of the operators, by their numbers. */
  predicate Worded(i: nat, op: string) {
    && ((op == "is" || op == "is not") <==> 0 <= i < 2)
    && (IsOrdered(op) <==> 2 <= i < 6)
    && (IsRange(op) <==> 6 <= i < 8)
    && ((op == "contains" || op == "does not contain") <==> 8 <= i < 10)
    && (IsList(op) <==> 10 <= i < 12)
    && ((op == "starts with" || op == "ends with") <==> 12 <= i < 14)
    && (IsTemporal(op) <==> 14 <= i < 18)
    && ((op == "is true" || op == "is false") <==> 18 <= i < 20)
    && ((op == "is empty" || op == "is not empty") <==> 20 <= i < 22)
    && ((op == "is null" || op == "is not null") <==> 22 <= i < 24)
  }

  lemma FirstWords(i: nat)
    requires i < 8
    ensures Worded(i, OPERATORS[i])
  {
  }

  lemma SecondWords(i: nat)
    requires 8 <= i < 16
    ensures Worded(i, OPERATORS[i])
  {
  }

  lemma LastWords(i: nat)
    requires 16 <= i < 26
    ensures Worded(i, OPERATORS[i])
  {
  }

  lemma Grouped(i: nat)
    requires i < 26
    ensures STORED[i] in EQUALITY <==> 0 <= i < 2
    ensures STORED[i] in ORDER <==> 2 <= i < 6
    ensures STORED[i] in RANGE <==> 6 <= i < 8
    ensures STORED[i] in PARTS <==> 8 <= i < 10
    ensures STORED[i] in LISTS <==> 10 <= i < 12
    ensures STORED[i] in ENDS <==> 12 <= i < 14
    ensures STORED[i] in TIMES <==> 14 <= i < 18
    ensures STORED[i] in TRUTH <==> 18 <= i < 20
    ensures STORED[i] in EMPTINESS <==> 20 <= i < 22
    ensures STORED[i] in NULLNESS <==> 22 <= i < 24
    ensures STORED[i] in EXISTENCE <==> 24 <= i < 26
  {
  }

  lemma InOperators(i: nat)
    requires i < |OPERATORS|
    ensures OPERATORS[i] in OPERATORS
  {
  }

  /** An operator is allowed exactly if the property supports it. */
  lemma AllowedAreSupported(p: Property, inside: bool, i: nat)
    requires i < |OPERATORS|
    ensures OperatorAllowed(OPERATORS[i], p, inside) <==> STORED[i] in SupportedBy(p, inside)
  {
    InOperators(i);
    Grouped(i);
    if i < 8 { FirstWords(i); } else if i < 16 { SecondWords(i); } else { LastWords(i); }
    WordedAlike(p, inside, i, OPERATORS[i]);
    SupportedAlike(p, inside, i, STORED[i]);
  }

  /** The switch on the operator, by its number. */
  predicate ByNumber(p: Property, inside: bool, i: nat) {
    var t := p.typ;
    if i < 2 then !t.BooleanType? && !IsContainer(t)
    else if i < 6 then FreeString(t) || t.IntType? || t.FloatType? || t.DecimalType? || t.JSONType?
    else if i < 8 then
      if t.StringType? then t.values.None? else !t.BooleanType? && !t.UUIDType? && !t.IPType? && !IsContainer(t)
    else if i < 10 then t.StringType? || t.JSONType? || (t.ArrayType? && !t.elem.BooleanType? && !IsContainer(t.elem))
    else if i < 12 then !t.BooleanType? && !t.UUIDType? && !t.IPType? && !IsContainer(t)
    else if i < 14 then FreeString(t) || t.JSONType?
    else if i < 18 then t.DateTimeType? || t.DateType? || t.TimeType? || t.YearType?
    else if i < 20 then t.BooleanType? || t.JSONType?
    else if i < 22 then
      if t.StringType? then t.values.None? || t.values.value == [] || "" in t.values.value
      else t.JSONType? || t.ArrayType? || t.MapType?
    else if i < 24 then p.nullable || t.JSONType?
    else p.readOptional || inside
  }

  lemma WordedAlike(p: Property, inside: bool, i: nat, op: string)
    requires i < 26 && op in OPERATORS && Worded(i, op)
    ensures OperatorAllowed(op, p, inside) <==> ByNumber(p, inside, i)
  {
  }

  lemma SupportedAlike(p: Property, inside: bool, i: nat, operator: Stored)
    requires i < 26
    requires operator in EQUALITY <==> 0 <= i < 2
    requires operator in ORDER <==> 2 <= i < 6
    requires operator in RANGE <==> 6 <= i < 8
    requires operator in PARTS <==> 8 <= i < 10
    requires operator in LISTS <==> 10 <= i < 12
    requires operator in ENDS <==> 12 <= i < 14
    requires operator in TIMES <==> 14 <= i < 18
    requires operator in TRUTH <==> 18 <= i < 20
    requires operator in EMPTINESS <==> 20 <= i < 22
    requires operator in NULLNESS <==> 22 <= i < 24
    requires operator in EXISTENCE <==> 24 <= i < 26
    ensures ByNumber(p, inside, i) <==> operator in SupportedBy(p, inside)
  {
    if p.typ.ArrayType? { ComparedByIs(p.typ.elem); }
  }

  lemma ComparedByIs(t: Type)
    ensures OpIs in Supported(t) <==> !t.BooleanType? && !IsContainer(t)
  {
  }

  lemma FirstTake(values: Option<seq<string>>, i: nat)
    requires i < 14
    ensures ArityFits(OPERATORS[i], values) <==> Takes(STORED[i], values)
  {
  }

  lemma LastTake(values: Option<seq<string>>, i: nat)
    requires 14 <= i < 26
    ensures ArityFits(OPERATORS[i], values) <==> Takes(STORED[i], values)
  {
  }

  lemma FitsAlike(lib: Library, t: Type, v: string)
    ensures ValueFits(lib, t, v) <==> Fits(lib, t, v)
  {
  }

  /** The condition, by the table: its path is valid and leads to a property, which supports the operator; and the values
      are as many as that takes, and fit. JSON properties can be refused. */
  ghost predicate Acceptable(c: Context, r: Rule, i: nat)
    requires r.Condition? && i < |OPERATORS|
  {
    && (forall k :: 0 <= k < |Split(r.property)| ==> ValidName(Split(r.property)[k]))
    && Resolve(c.properties, Split(r.property)).Some?
    && var found := Resolve(c.properties, Split(r.property)).value;
       && !(c.disallowJSON && found.property.typ == JSONType)
       && STORED[i] in SupportedBy(found.property, found.names < |Split(r.property)|)
       && Takes(STORED[i], r.values)
       && (r.values.Some? ==> forall k :: 0 <= k < |r.values.value| ==> Fits(c.lib, found.property.typ, r.values.value[k]))
  }

  /** Exactly such conditions are accepted, with one of the operators. */
  lemma AcceptedConditions(c: Context, r: Rule)
    requires r.Condition?
    ensures ConditionChecker(c)(r).Some? <==> exists i :: 0 <= i < |OPERATORS| && OPERATORS[i] == r.operator && Acceptable(c, r, i)
  {
    forall i | 0 <= i < |OPERATORS| && OPERATORS[i] == r.operator ensures Acceptable(c, r, i) <==> ConditionValid(c, r) {
      AcceptedWith(c, r, i);
    }
    if ConditionValid(c, r) {
      assert r.operator in OPERATORS;
      var i :| 0 <= i < |OPERATORS| && OPERATORS[i] == r.operator;
      assert Acceptable(c, r, i);
    }
  }

  /** The path that is collected is that of the property, without what is inside it. */
  lemma CollectedPathIs(c: Context, r: Rule)
    requires r.Condition? && ConditionValid(c, r)
    ensures 1 <= ResolvePath(c, r.property).value.names <= |Split(r.property)|
    ensures ConditionChecker(c)(r) == Some(Join(Split(r.property)[..ResolvePath(c, r.property).value.names]))
  {
    ResolvedNames(c.properties, Split(r.property));
  }

  lemma AcceptedWith(c: Context, r: Rule, i: nat)
    requires r.Condition? && i < |OPERATORS| && OPERATORS[i] == r.operator
    ensures Acceptable(c, r, i) <==> ConditionValid(c, r)
  {
    if i < 14 { FirstTake(r.values, i); } else { LastTake(r.values, i); }
    if Resolve(c.properties, Split(r.property)).Some? {
      var found := Resolve(c.properties, Split(r.property)).value;
      AllowedAreSupported(found.property, found.names < |Split(r.property)|, i);
      forall v ensures ValueFits(c.lib, found.property.typ, v) <==> Fits(c.lib, found.property.typ, v) {
        FitsAlike(c.lib, found.property.typ, v);
      }
    }
  }

  // ---- Paths and operands ------------------------------------------------------------------------------------------

  lemma {:induction false} ResolvesThroughObjects(properties: seq<Property>, names: seq<string>, n: nat)
    requires 1 <= n <= |names|
    ensures Resolve(properties, names).Some? && Resolve(properties, names).value.names == n ==>
      ByPath(properties, names[..n]) == Some(Resolve(properties, names).value.property)
      && (n == |names| || Resolve(properties, names).value.property.typ.JSONType?)
    ensures ByPath(properties, names[..n]).Some? && (n == |names| || ByPath(properties, names[..n]).value.typ.JSONType?) ==>
      Resolve(properties, names) == Some(Resolved(ByPath(properties, names[..n]).value, n))
    decreases names
  {
    if ByName(properties, names[0]).Some? {
      var p := ByName(properties, names[0]).value;
      if |names| > 1 && p.typ.ObjectType? {
        if n > 1 {
          ResolvesThroughObjects(p.typ.properties, names[1..], n - 1);
          assert names[..n][1..] == names[1..][..n - 1];
        }
        ResolvedNames(p.typ.properties, names[1..]);
      }
    }
  }

  /** A path resolves to the property that it leads to through objects or, if it goes on inside a JSON property, to that. */
  lemma ResolvesExactly(properties: seq<Property>, names: seq<string>, p: Property, n: nat)
    ensures Resolve(properties, names) == Some(Resolved(p, n)) <==>
      && 1 <= n <= |names| && ByPath(properties, names[..n]) == Some(p) && (n == |names| || p.typ.JSONType?)
  {
    ResolvedNames(properties, names);
    if 1 <= n <= |names| { ResolvesThroughObjects(properties, names, n); }
  }

  /** What a value denotes: text is itself, a numeral in range its number, and a UUID its lower case. */
  lemma OperandsDenote(lib: Library, t: Type, v: string)
    ensures t.StringType? ==> ParseOperand(lib, t, v) == Some(OText(v))
    ensures t.JSONType? ==> ParseOperand(lib, t, v) == Some(OJson(v, lib.decimal(v)))
    ensures t.IntType? && t.unsigned && IsNumeral(v) && FilterNumbers.Value(v) < 0x1_0000_0000_0000_0000 ==>
      ParseOperand(lib, t, v) == Some(OUint(FilterNumbers.Value(v)))
    ensures t.UUIDType? && ParseOperand(lib, t, v).Some? ==>
      var text := ParseOperand(lib, t, v).value.text;
      |v| == 36 == |text| && forall i :: 0 <= i < 36 ==>
        text[i] == if 'A' <= v[i] <= 'Z' then (v[i] as int - 'A' as int + 'a' as int) as char else v[i]
    ensures t.BooleanType? || t.ArrayType? || t.MapType? || t.ObjectType? ==> ParseOperand(lib, t, v) == None
    ensures t.IPType? ==> (ParseOperand(lib, t, v).Some? <==> lib.ip(v).Some?)
    ensures t.IPType? && lib.ip(v).Some? ==> ParseOperand(lib, t, v) == Some(OText(lib.ip(v).value))
  {
    if t.IntType? && t.unsigned && IsNumeral(v) && FilterNumbers.Value(v) < 0x1_0000_0000_0000_0000 {
      UnsignedIsExactInRange(v);
    }
  }
}
