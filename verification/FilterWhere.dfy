/** The stored form of filters: conversion to a where expression and back (core/filters.go:178-334). */
module FilterWhere {
  import opened Prelude
  import opened Strings
  import opened FilterNumbers
  import opened FilterSyntax
  import opened Schemas
  import opened FilterValidation

  datatype Logical = And | Or

  datatype Where =
    | WhereGroup(logical: Logical, rules: seq<Where>)
    | WhereCondition(property: seq<string>, operator: nat, values: seq<Operand>)

  function ToLogical(operator: string): Logical { if operator == "and" then And else Or }

  function FromLogical(operator: Logical): string { if operator.And? then "and" else "or" }

  /** The position of an operator in the list of operators; that of a word that is none is past its end. */
  function OperatorIndex(op: string, from: nat): (i: nat)
    requires from <= |OPERATORS|
    ensures from <= i <= |OPERATORS| && (i < |OPERATORS| ==> OPERATORS[i] == op)
    ensures i == |OPERATORS| ==> forall j :: from <= j < |OPERATORS| ==> OPERATORS[j] != op
    decreases |OPERATORS| - from
  {
    if from == |OPERATORS| || OPERATORS[from] == op then from else OperatorIndex(op, from + 1)
  }

  // ---- To the stored form -------------------------------------------------------------------------------------

  /** What converting a filter can come to: a where expression, or a panic because of a type that has
      no operands. `exact` is whether every operand was parsed; the zero value replaces one that was not. */
  datatype Converted<+T> = Panic | Converted(value: T, exact: bool)

  predicate HasOperands(t: Type) { !t.ArrayType? && !t.MapType? && !t.ObjectType? }

  function ZeroOperand(t: Type): Operand
    requires HasOperands(t)
  {
    match t
    case BooleanType => OBool(false)
    case IntType(unsigned) => if unsigned then OUint(0) else OInt(0)
    case YearType => OInt(0)
    case FloatType => OFloat(0)
    case DecimalType(_) => ODecimal(0)
    case DateTimeType => OTime(0)
    case DateType => OTime(0)
    case TimeType => OTime(0)
    case JSONType => OJson("", None)
    case _ => OText("")
  }

  function ConvertValue(lib: Library, t: Type, v: string): Converted<Operand> {
    if t.BooleanType? then Converted(OBool(v == "true"), true)
    else if !HasOperands(t) then Panic
    else
      match ParseOperand(lib, t, v)
      case Some(operand) => Converted(operand, true)
      case None => Converted(ZeroOperand(t), false)
  }

  function ConvertValues(lib: Library, t: Type, values: seq<string>): Converted<seq<Operand>> {
    if values == [] then Converted([], true)
    else
      match (ConvertValue(lib, t, values[0]), ConvertValues(lib, t, values[1..]))
      case (Converted(first, exact), Converted(rest, restExact)) => Converted([first] + rest, exact && restExact)
      case _ => Panic
  }

  /** The type of the operands of a condition; that of no property is as good as any other. */
  function OperandType(c: Context, names: seq<string>): Type {
    match Resolve(c.properties, names)
    case Some(found) => ElementType(found.property.typ)
    case None => ObjectType([])
  }

  function ToWhere(c: Context, r: Rule): Converted<Where>
    decreases r, 1
  {
    match r
    case Group(operator, rules) =>
      (match ToWheres(c, rules)
       case Converted(wheres, exact) => Converted(WhereGroup(ToLogical(operator), wheres), exact)
       case Panic => Panic)
    case Condition(property, operator, values) =>
      match ConvertValues(c.lib, OperandType(c, Split(property)), if values.Some? then values.value else [])
      case Converted(operands, exact) => Converted(WhereCondition(Split(property), OperatorIndex(operator, 0), operands), exact)
      case Panic => Panic
  }

  function ToWheres(c: Context, rules: seq<Rule>): Converted<seq<Where>>
    decreases rules, 0
  {
    if rules == [] then Converted([], true)
    else
      match (ToWhere(c, rules[0]), ToWheres(c, rules[1..]))
      case (Converted(first, exact), Converted(rest, restExact)) => Converted([first] + rest, exact && restExact)
      case _ => Panic
  }

  // ---- Back -----------------------------------------------------------------------------------------------------

  /** The printers of operands that this model does not look into. */
  type Printer = Operand -> string

  function PrintOperand(show: Printer, o: Operand): string {
    match o
    case OText(text) => text
    case OBool(value) => if value then "true" else "false"
    case OInt(n) => FormatInt(n)
    case OUint(n) => Format(n)
    case OJson(json, _) => json
    case _ => show(o)
  }

  function PrintOperands(show: Printer, operands: seq<Operand>): seq<string> {
    if operands == [] then [] else [PrintOperand(show, operands[0])] + PrintOperands(show, operands[1..])
  }

  function ToFilter(show: Printer, w: Where): Rule
    decreases w, 1
  {
    match w
    case WhereGroup(operator, rules) => Group(FromLogical(operator), ToFilters(show, rules))
    case WhereCondition(property, operator, values) =>
      Condition(if property == [] then "" else Join(property),
                if operator < |OPERATORS| then OPERATORS[operator] else "",
                if values == [] then None else Some(PrintOperands(show, values)))
  }

  function ToFilters(show: Printer, wheres: seq<Where>): seq<Rule>
    decreases wheres, 0
  {
    if wheres == [] then [] else [ToFilter(show, wheres[0])] + ToFilters(show, wheres[1..])
  }

  // ---- Accepted filters convert -------------------------------------------------------------------------------------

  lemma ValidOperator(c: Context, r: Rule)
    requires r.Condition? && ConditionValid(c, r)
    ensures r.operator in OPERATORS && OperatorIndex(r.operator, 0) < |OPERATORS|
  {
  }

  /** A value that fits converts exactly, and not on a boolean or a container. */
  lemma FittingValueConverts(lib: Library, t: Type, v: string)
    requires ValueFits(lib, t, v)
    ensures ConvertValue(lib, ElementType(t), v).Converted? && ConvertValue(lib, ElementType(t), v).exact
    ensures ParseOperand(lib, ElementType(t), v) == Some(ConvertValue(lib, ElementType(t), v).value)
  {
  }

  lemma {:induction false} FittingValuesConvert(lib: Library, t: Type, values: seq<string>)
    requires forall i :: 0 <= i < |values| ==> ValueFits(lib, t, values[i])
    ensures ConvertValues(lib, ElementType(t), values).Converted? && ConvertValues(lib, ElementType(t), values).exact
    ensures |ConvertValues(lib, ElementType(t), values).value| == |values|
    ensures forall i :: 0 <= i < |values| ==>
              ParseOperand(lib, ElementType(t), values[i]) == Some(ConvertValues(lib, ElementType(t), values).value[i])
  {
    if values != [] {
      FittingValueConverts(lib, t, values[0]);
      FittingValuesConvert(lib, t, values[1..]);
    }
  }

  lemma ConditionConverts(c: Context, r: Rule)
    requires r.Condition? && ConditionValid(c, r)
    ensures ToWhere(c, r).Converted? && ToWhere(c, r).exact
  {
    var found := ResolvePath(c, r.property).value;
    FittingValuesConvert(c.lib, found.property.typ, if r.values.Some? then r.values.value else []);
  }

  /** Every filter that validation accepts converts without a panic, every operand parsed. */
  lemma {:induction false} ValidFiltersConvert(c: Context, r: Rule)
    requires TreeValid(ConditionChecker(c), r)
    ensures ToWhere(c, r).Converted? && ToWhere(c, r).exact
    decreases r, 1
  {
    match r
    case Group(_, rules) => ValidRulesConvert(c, rules);
    case Condition(_, _, _) => ConditionConverts(c, r);
  }

  lemma {:induction false} ValidRulesConvert(c: Context, rules: seq<Rule>)
    requires TreesValid(ConditionChecker(c), rules)
    ensures ToWheres(c, rules).Converted? && ToWheres(c, rules).exact
    decreases rules, 0
  {
    if rules != [] {
      ValidFiltersConvert(c, rules[0]);
      ValidRulesConvert(c, rules[1..]);
    }
  }

  // ---- There, back, and there again ------------------------------------------------------------------------------------

  /** The types whose operands the model knows: their printed form is parsed back. */
  predicate ExactType(t: Type) { t.StringType? || t.IntType? || t.YearType? || t.UUIDType? || t.IPType? || t.JSONType? }

  predicate ExactTypes(c: Context, r: Rule)
    decreases r, 1
  {
    match r
    case Group(_, rules) => AllExactTypes(c, rules)
    case Condition(property, _, values) => values.Some? ==> ExactType(OperandType(c, Split(property)))
  }

  predicate AllExactTypes(c: Context, rules: seq<Rule>)
    decreases rules, 0
  {
    rules == [] || (ExactTypes(c, rules[0]) && AllExactTypes(c, rules[1..]))
  }

  /** The normal form of an address is its own normal form. */
  ghost predicate NormalizesAddresses(lib: Library) {
    forall a: string :: lib.ip(a).Some? ==> lib.ip(lib.ip(a).value) == lib.ip(a)
  }

  lemma OperandRoundTrip(lib: Library, show: Printer, t: Type, v: string)
    requires NormalizesAddresses(lib) && ExactType(t) && ParseOperand(lib, t, v).Some?
    ensures ParseOperand(lib, t, PrintOperand(show, ParseOperand(lib, t, v).value)) == ParseOperand(lib, t, v)
  {
    match t {
      case IntType(unsigned) =>
        if unsigned { UnsignedRoundTrip(Unsigned(v).value); } else { SignedRoundTrip(Signed(v).value); }
      case YearType =>
        YearRoundTrip(Year(v).value);
      case UUIDType => NormalizeUUIDIsIdempotent(v);
      case _ =>
    }
  }

  lemma {:induction false} OperandsRoundTrip(lib: Library, show: Printer, t: Type, operands: seq<Operand>, values: seq<string>)
    requires NormalizesAddresses(lib) && ExactType(t) && |operands| == |values|
    requires forall i :: 0 <= i < |values| ==> ParseOperand(lib, t, values[i]) == Some(operands[i])
    ensures ConvertValues(lib, t, PrintOperands(show, operands)) == Converted(operands, true)
  {
    if operands != [] {
      OperandRoundTrip(lib, show, t, values[0]);
      assert ParseOperand(lib, t, PrintOperand(show, operands[0])) == Some(operands[0]);
      OperandsRoundTrip(lib, show, t, operands[1..], values[1..]);
      assert PrintOperands(show, operands)[1..] == PrintOperands(show, operands[1..]);
      assert [operands[0]] + operands[1..] == operands;
    }
  }

  lemma IndexOfOperator(i: nat, op: string)
    requires i < |OPERATORS| && OPERATORS[i] == op && i == OperatorIndex(op, 0)
    ensures OperatorIndex(OPERATORS[i], 0) == i
  {
  }

  lemma ConditionRoundTrips(c: Context, show: Printer, r: Rule)
    requires NormalizesAddresses(c.lib) && r.Condition? && ConditionValid(c, r) && ExactTypes(c, r)
    ensures ToWhere(c, r).Converted?
    ensures ToWhere(c, ToFilter(show, ToWhere(c, r).value)) == ToWhere(c, r)
  {
    ConditionConverts(c, r);
    ValidOperator(c, r);
    var w := ToWhere(c, r).value;
    var t := OperandType(c, Split(r.property));
    var values := if r.values.Some? then r.values.value else [];
    FittingValuesConvert(c.lib, ResolvePath(c, r.property).value.property.typ, values);
    JoinOfSplit(r.property);
    IndexOfOperator(w.operator, r.operator);
    if values != [] { OperandsRoundTrip(c.lib, show, t, w.values, values); }
  }

  /** Converting an accepted filter to the stored form, back to a filter and again to the stored form
      gives the same stored form, for text, integer, year, UUID, address and JSON operands. */
  lemma {:induction false} WhereRoundTrip(c: Context, show: Printer, r: Rule)
    requires NormalizesAddresses(c.lib) && TreeValid(ConditionChecker(c), r) && ExactTypes(c, r)
    ensures ToWhere(c, r).Converted?
    ensures ToWhere(c, ToFilter(show, ToWhere(c, r).value)) == ToWhere(c, r)
    decreases r, 1
  {
    match r
    case Group(_, rules) => WheresRoundTrip(c, show, rules);
    case Condition(_, _, _) => ConditionRoundTrips(c, show, r);
  }

  lemma {:induction false} WheresRoundTrip(c: Context, show: Printer, rules: seq<Rule>)
    requires NormalizesAddresses(c.lib) && TreesValid(ConditionChecker(c), rules) && AllExactTypes(c, rules)
    ensures ToWheres(c, rules).Converted?
    ensures ToWheres(c, ToFilters(show, ToWheres(c, rules).value)) == ToWheres(c, rules)
    decreases rules, 0
  {
    if rules != [] {
      WhereRoundTrip(c, show, rules[0]);
      WheresRoundTrip(c, show, rules[1..]);
      var ws := ToWheres(c, rules).value;
      assert ws[1..] == ToWheres(c, rules[1..]).value;
      assert ToFilters(show, ws)[1..] == ToFilters(show, ws[1..]);
    }
  }
}
