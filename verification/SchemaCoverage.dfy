/** The walk over the properties of a schema, and what it means that no property is left unused
    (tools/types/properties.go:229-262, core/pipeline_validate.go:776-802). */
module SchemaCoverage {
  import opened Prelude
  import opened Strings
  import opened Schemas
  import opened AttributePaths

  /** A property the walk yields, with its path; and an entry of its stack, whose path is still to be made. */
  datatype Visit = Visit(path: string, property: Property)
  datatype Entry = Entry(base: string, property: Property)

  /** The order promised for the walk: each property before those inside it, in the order of the schema. */
  function Preorder(properties: seq<Property>, base: string): seq<Visit>
    decreases properties, 0
  {
    if properties == [] then [] else PreorderOf(properties[0], base) + Preorder(properties[1..], base)
  }

  function PreorderOf(p: Property, base: string): (visits: seq<Visit>)
    ensures visits != [] && visits[0] == Visit(base + p.name, p)
    decreases p, 1
  {
    [Visit(base + p.name, p)]
    + if p.typ.ObjectType? then Preorder(p.typ.properties, base + p.name + ".") else []
  }

  /** What a stack, whose top is its last entry, still has to yield. */
  function ToVisit(entries: seq<Entry>): seq<Visit> {
    if entries == [] then []
    else PreorderOf(entries[|entries| - 1].property, entries[|entries| - 1].base) + ToVisit(entries[..|entries| - 1])
  }

  /** The entries for some properties, pushed from the last one to the first. */
  function Pushed(properties: seq<Property>, base: string): (entries: seq<Entry>)
    ensures |entries| == |properties|
  {
    if properties == [] then [] else Pushed(properties[1..], base) + [Entry(base, properties[0])]
  }

  lemma {:induction false} PushedAreVisitedInOrder(below: seq<Entry>, properties: seq<Property>, base: string)
    ensures ToVisit(below + Pushed(properties, base)) == Preorder(properties, base) + ToVisit(below)
  {
    if properties == [] {
      assert below + [] == below;
    } else {
      var entries := below + Pushed(properties, base);
      assert entries == (below + Pushed(properties[1..], base)) + [Entry(base, properties[0])];
      assert entries[..|entries| - 1] == below + Pushed(properties[1..], base);
      PushedAreVisitedInOrder(below, properties[1..], base);
    }
  }

  /** The walk keeps a stack, and pushes the properties of an object in reverse. */
  method WalkObjects(schema: seq<Property>) returns (visits: seq<Visit>)
    ensures visits == Preorder(schema, "")
  {
    var entries := Push([], schema, "");
    visits := [];
    while |entries| > 0
      invariant visits + ToVisit(entries) == Preorder(schema, "")
      decreases |ToVisit(entries)|
    {
      ghost var before := visits + ToVisit(entries);
      var e := entries[|entries| - 1];
      entries := entries[..|entries| - 1];
      var path := e.base + e.property.name;
      visits := visits + [Visit(path, e.property)];
      if e.property.typ.ObjectType? {
        entries := Push(entries, e.property.typ.properties, path + ".");
      }
      assert visits + ToVisit(entries) == before;
    }
  }

  method Push(below: seq<Entry>, properties: seq<Property>, base: string) returns (entries: seq<Entry>)
    ensures ToVisit(entries) == Preorder(properties, base) + ToVisit(below)
  {
    entries := below;
    var i := |properties|;
    assert properties[i..] == [];
    while i > 0
      invariant 0 <= i <= |properties|
      invariant entries == below + Pushed(properties[i..], base)
    {
      i := i - 1;
      assert properties[i..][1..] == properties[i + 1..];
      entries := entries + [Entry(base, properties[i])];
    }
    assert properties[0..] == properties;
    PushedAreVisitedInOrder(below, properties, base);
  }

  // ---- What the walk yields ----------------------------------------------------------------------------------

  /** Property names have no dots and are distinct within an object, at any depth. */
  ghost predicate WellNamed(properties: seq<Property>)
    decreases properties, 0
  {
    && (forall i :: 0 <= i < |properties| ==> !HasDot(properties[i].name) && WellNamedInside(properties[i]))
    && (forall i, j :: 0 <= i < j < |properties| ==> properties[i].name != properties[j].name)
  }

  ghost predicate WellNamedInside(p: Property)
    decreases p, 1
  {
    p.typ.ObjectType? ==> WellNamed(p.typ.properties)
  }

  lemma {:induction false} ByNameInTail(properties: seq<Property>, name: string)
    requires properties != [] && WellNamed(properties)
    ensures WellNamed(properties[1..])
    ensures ByName(properties[1..], name).Some? ==> properties[0].name != name
  {
  }

  /** Every yielded property is the one its path leads to. */
  lemma {:induction false} VisitsAreByPath(properties: seq<Property>, base: string, v: Visit)
    returns (names: seq<string>)
    requires WellNamed(properties) && v in Preorder(properties, base)
    ensures names != [] && v.path == base + Join(names)
    ensures forall i :: 0 <= i < |names| ==> !HasDot(names[i])
    ensures ByPath(properties, names) == Some(v.property)
    decreases properties, 0
  {
    var p := properties[0];
    if v in PreorderOf(p, base) {
      if v == Visit(base + p.name, p) {
        names := [p.name];
      } else {
        var inner := VisitsAreByPath(p.typ.properties, base + p.name + ".", v);
        names := [p.name] + inner;
        JoinCons(p.name, inner);
        assert names[1..] == inner;
        assert v.path == base + (p.name + "." + Join(inner));
      }
    } else {
      names := VisitsAreByPath(properties[1..], base, v);
      ByNameInTail(properties, names[0]);
    }
  }

  /** Every property that a path leads to is yielded, with that path. */
  lemma {:induction false} ByPathIsVisited(properties: seq<Property>, base: string, names: seq<string>)
    requires WellNamed(properties) && ByPath(properties, names).Some?
    ensures Visit(base + Join(names), ByPath(properties, names).value) in Preorder(properties, base)
    decreases |names|, properties
  {
    var p := properties[0];
    if p.name == names[0] {
      if |names| > 1 {
        ByPathIsVisited(p.typ.properties, base + p.name + ".", names[1..]);
        assert base + p.name + "." + Join(names[1..]) == base + Join(names);
      }
    } else {
      assert ByPath(properties[1..], names) == ByPath(properties, names);
      ByPathIsVisited(properties[1..], base, names);
    }
  }

  /** The walk yields each property of the schema, at any depth, and nothing else. */
  lemma WalkIsTheSchema(schema: seq<Property>, path: string, p: Property)
    requires WellNamed(schema)
    ensures Visit(path, p) in Preorder(schema, "") <==> ByPath(schema, Split(path)) == Some(p)
  {
    if Visit(path, p) in Preorder(schema, "") {
      var names := VisitsAreByPath(schema, "", Visit(path, p));
      SplitOfJoin(names);
      assert "" + Join(names) == Join(names);
    }
    if ByPath(schema, Split(path)) == Some(p) {
      ByPathIsVisited(schema, "", Split(path));
      JoinOfSplit(path);
      assert "" + Join(Split(path)) == Join(Split(path));
    }
  }

  // ---- Unused properties -------------------------------------------------------------------------------------

  /** A property that is not an object. */
  predicate IsLeaf(schema: seq<Property>, path: string) {
    ByPath(schema, Split(path)).Some? && !ByPath(schema, Split(path)).value.typ.ObjectType?
  }

  predicate Used(path: string, used: seq<string>) { exists k :: 0 <= k < |used| && Covers(used[k], path) }

  /** Tests for the path itself, then for one that it begins with, up to a dot. */
  method IsUsed(path: string, usedPaths: seq<string>) returns (used: bool)
    ensures used <==> Used(path, usedPaths)
  {
    if path in usedPaths {
      return true;
    }
    for k := 0 to |usedPaths|
      invariant forall l :: 0 <= l < k ==> !Covers(usedPaths[l], path)
    {
      CoversIsEqualOrSubPath(usedPaths[k], path);
      if usedPaths[k] + "." <= path {
        return true;
      }
    }
    return false;
  }

  /** The first leaf, in the order of the walk, that is not used. */
  method UnusedPropertyPath(schema: seq<Property>, usedPaths: seq<string>) returns (unused: Option<string>)
    requires WellNamed(schema)
    ensures unused.None? <==> forall path :: IsLeaf(schema, path) ==> Used(path, usedPaths)
    ensures unused.Some? ==> IsLeaf(schema, unused.value) && !Used(unused.value, usedPaths)
  {
    var visits := WalkObjects(schema);
    for i := 0 to |visits|
      invariant forall j :: 0 <= j < i && !visits[j].property.typ.ObjectType? ==> Used(visits[j].path, usedPaths)
    {
      if visits[i].property.typ.ObjectType? {
        continue;
      }
      var used := IsUsed(visits[i].path, usedPaths);
      if !used {
        assert visits[i] == Visit(visits[i].path, visits[i].property);
        WalkIsTheSchema(schema, visits[i].path, visits[i].property);
        assert IsLeaf(schema, visits[i].path);
        return Some(visits[i].path);
      }
    }
    forall path | IsLeaf(schema, path) ensures Used(path, usedPaths) {
      WalkIsTheSchema(schema, path, ByPath(schema, Split(path)).value);
    }
    return None;
  }

  // ---- Every leaf is written once ----------------------------------------------------------------------------

  /** What the validation of a pipeline with a transformation function establishes about its output:
      the paths of the function, the matching property of an export if there is one, and no unused property. */
  ghost predicate AcceptedOutput(schema: seq<Property>, outPaths: seq<string>, matching: Option<string>) {
    && Independent(outPaths)
    && (forall i :: 0 <= i < |outPaths| ==> InSchema(Some(schema), outPaths[i]))
    && (matching.Some? ==>
        IsLeaf(schema, matching.value) && forall i :: 0 <= i < |outPaths| ==> !Covers(outPaths[i], matching.value))
    && (forall path :: IsLeaf(schema, path) ==> Used(path, UsedPaths(outPaths, matching)))
  }

  /** The kinds of property that can be matched. */
  predicate CanBeMatched(t: Type) { t.StringType? || t.IntType? || t.UUIDType? }

  predicate ValidMatching(schema: seq<Property>, path: string) {
    && ValidPath(path)
    && ByPath(schema, Split(path)).Some?
    && CanBeMatched(ByPath(schema, Split(path)).value.typ)
  }

  /** The checks on the output of a transformation function, in the order of the validation. */
  method ValidateOutput(schema: seq<Property>, outPaths: Option<seq<string>>, matching: Option<string>)
    returns (ok: bool)
    requires WellNamed(schema)
    ensures ok <==>
      && outPaths.Some? && outPaths.value != []
      && (forall i :: 0 <= i < |outPaths.value| ==> ValidPath(outPaths.value[i]))
      && (matching.Some? ==>
            && ValidPath(matching.value) && ByPath(schema, Split(matching.value)).Some?
            && var t := ByPath(schema, Split(matching.value)).value.typ; t.StringType? || t.IntType? || t.UUIDType?)
      && AcceptedOutput(schema, outPaths.value, matching)
  {
    var error := ValidatePaths(false, Some(schema), outPaths, false);
    if error.Some? {
      return false;
    }
    if matching.Some? {
      if !ValidMatching(schema, matching.value) {
        return false;
      }
      var untransformed := MatchingUntransformed(matching.value, outPaths.value);
      if !untransformed {
        return false;
      }
    }
    var unused := UnusedPropertyPath(schema, UsedPaths(outPaths.value, matching));
    return unused.None?;
  }

  function UsedPaths(outPaths: seq<string>, matching: Option<string>): seq<string> {
    outPaths + if matching.Some? then [matching.value] else []
  }

  predicate OnlyCover(used: seq<string>, k: int, path: string) {
    0 <= k < |used| && forall j :: 0 <= j < |used| ==> (Covers(used[j], path) <==> j == k)
  }

  /** Paths do not go through a property that is not an object. */
  lemma {:induction false} NothingBelowALeaf(schema: seq<Property>, names: seq<string>, longer: seq<string>)
    requires ByPath(schema, names).Some? && !ByPath(schema, names).value.typ.ObjectType?
    requires names < longer
    ensures ByPath(schema, longer).None?
    decreases names
  {
    assert longer[0] == names[0];
    if |names| > 1 {
      assert names[1..] < longer[1..];
      NothingBelowALeaf(ByName(schema, names[0]).value.typ.properties, names[1..], longer[1..]);
    }
  }

  /** The used paths of an accepted output are independent, the matching path included. */
  lemma UsedAreIndependent(schema: seq<Property>, outPaths: seq<string>, matching: Option<string>)
    requires AcceptedOutput(schema, outPaths, matching)
    ensures Independent(UsedPaths(outPaths, matching))
  {
    var used := UsedPaths(outPaths, matching);
    forall i, j | 0 <= i < |used| && 0 <= j < |used| && i != j ensures !Covers(used[i], used[j]) {
      if i == |outPaths| && Covers(used[i], used[j]) {
        assert InSchema(Some(schema), outPaths[j]) && !Covers(outPaths[j], matching.value);
        NothingBelowALeaf(schema, Split(used[i]), Split(used[j]));
      }
    }
  }

  /** Every leaf of the output schema is covered by exactly one used path. */
  lemma EveryLeafIsCoveredOnce(schema: seq<Property>, outPaths: seq<string>, matching: Option<string>, path: string)
    requires AcceptedOutput(schema, outPaths, matching) && IsLeaf(schema, path)
    ensures exists k :: OnlyCover(UsedPaths(outPaths, matching), k, path)
  {
    var used := UsedPaths(outPaths, matching);
    UsedAreIndependent(schema, outPaths, matching);
    assert Used(path, used);
    var k :| 0 <= k < |used| && Covers(used[k], path);
    forall j | 0 <= j < |used| && Covers(used[j], path) ensures j == k {
      PrefixesAreComparable(Split(used[j]), Split(used[k]), Split(path));
    }
    assert OnlyCover(used, k, path);
  }

  lemma PrefixesAreComparable(a: seq<string>, b: seq<string>, c: seq<string>)
    requires a <= c && b <= c
    ensures a <= b || b <= a
  {
    assert a == c[..|a|] && b == c[..|b|];
  }
}
