/** Reading and setting an attribute by its path in nested attributes, and the theorem of the export of
    profiles: setting the matching value leaves the transformed values alone
    (core/run_export.go:281-283, core/run_export.go:558-592). */
module Attributes {
  import opened Prelude
  import opened Strings
  import opened Schemas
  import opened AttributePaths
  import opened SchemaCoverage

  /** The value of an attribute: nested attributes, or a value of any other kind. */
  datatype Attribute = Value(value: nat) | Nested(attributes: map<string, Attribute>)

  type Attrs = map<string, Attribute>

  /** What reading a path means. */
  function Get(attrs: Attrs, names: seq<string>): Option<Attribute>
    requires names != []
    decreases |names|
  {
    if names[0] !in attrs then None
    else if |names| == 1 then Some(attrs[names[0]])
    else if attrs[names[0]].Nested? then Get(attrs[names[0]].attributes, names[1..])
    else None
  }

  /** What setting a path means: what is not nested attributes on the way is replaced by such. */
  function Set(attrs: Attrs, names: seq<string>, v: Attribute): Attrs
    requires names != []
    decreases |names|
  {
    if |names| == 1 then attrs[names[0] := v]
    else attrs[names[0] := Attribute.Nested(Set(Inside(attrs, names[0]), names[1..], v))]
  }

  function Inside(attrs: Attrs, name: string): Attrs {
    if name in attrs && attrs[name].Nested? then attrs[name].attributes else map[]
  }

  lemma {:induction false} GetSet(attrs: Attrs, names: seq<string>, v: Attribute)
    requires names != []
    ensures Get(Set(attrs, names, v), names) == Some(v)
    decreases |names|
  {
    if |names| > 1 { GetSet(Inside(attrs, names[0]), names[1..], v); }
  }

  /** A path that neither leads to, nor goes on from, the path that is set reads what it read before. */
  lemma {:induction false} GetSetElsewhere(attrs: Attrs, names: seq<string>, v: Attribute, other: seq<string>)
    requires names != [] && other != []
    requires !(names <= other) && !(other <= names)
    ensures Get(Set(attrs, names, v), other) == Get(attrs, other)
    decreases |names|
  {
    if names[0] == other[0] {
      assert |names| == 1 ==> names <= other;
      assert |other| == 1 ==> other <= names;
      PrefixOfTails(names, other);
      PrefixOfTails(other, names);
      GetSetElsewhere(Inside(attrs, names[0]), names[1..], v, other[1..]);
    }
  }

  lemma PrefixOfTails(a: seq<string>, b: seq<string>)
    requires a != [] && b != [] && a[0] == b[0]
    ensures a[1..] <= b[1..] <==> a <= b
  {
    assert a == [a[0]] + a[1..] && b == [b[0]] + b[1..];
  }

  /** The matching value set in an export: it reads back, and every path of the transformation function
      reads what the function gave it, whatever attributes the function returned. */
  lemma MatchingValueClobbersNothing(schema: seq<Property>, outPaths: seq<string>, matching: string,
                                     attrs: Attrs, v: Attribute)
    requires AcceptedOutput(schema, outPaths, Some(matching))
    ensures Get(Set(attrs, Split(matching), v), Split(matching)) == Some(v)
    ensures forall i :: 0 <= i < |outPaths| ==>
      Get(Set(attrs, Split(matching), v), Split(outPaths[i])) == Get(attrs, Split(outPaths[i]))
  {
    GetSet(attrs, Split(matching), v);
    UsedAreIndependent(schema, outPaths, Some(matching));
    var used := UsedPaths(outPaths, Some(matching));
    forall i | 0 <= i < |outPaths|
      ensures Get(Set(attrs, Split(matching), v), Split(outPaths[i])) == Get(attrs, Split(outPaths[i]))
    {
      assert !Covers(used[i], used[|outPaths|]) && !Covers(used[|outPaths|], used[i]);
      GetSetElsewhere(attrs, Split(matching), v, Split(outPaths[i]));
    }
  }

  /** Without the check on the parents the value could be lost: a parent that is not nested attributes is replaced. */
  lemma UncheckedParentIsClobbered()
    ensures
      var attrs: Attrs := map["a" := Value(1)];
      && Get(attrs, ["a"]) == Some(Value(1))
      && Get(Set(attrs, ["a", "b"], Value(2)), ["a"]) != Some(Value(1))
  {
    var attrs: Attrs := map["a" := Value(1)];
    assert ["a", "b"][1..] == ["b"];
    assert Set(attrs, ["a", "b"], Value(2))["a"].Nested?;
  }

  // ---- The loop that reads ------------------------------------------------------------------------------------

  /** Cuts the path at its first dot, and descends. */
  method GetAttribute(attributes: Attrs, path: string) returns (found: Option<Attribute>)
    ensures found == Get(attributes, Split(path))
  {
    var attrs, rest := attributes, path;
    while HasDot(rest)
      invariant Get(attributes, Split(path)) == Get(attrs, Split(rest))
      decreases |rest|
    {
      var name := rest[..FirstDot(rest)];
      assert Split(rest)[0] == name && Split(rest)[1..] == Split(rest[FirstDot(rest) + 1..]);
      if name !in attrs || !attrs[name].Nested? {
        return None;
      }
      attrs := attrs[name].attributes;
      rest := rest[FirstDot(rest) + 1..];
    }
    return if rest in attrs then Some(attrs[rest]) else None;
  }

  // ---- Nested attributes in the heap --------------------------------------------------------------------------

  /** Attributes that are updated in place. `repr` holds the nodes below, which no other node shares. */
  class Node {
    var entries: map<string, Entry>
    ghost var repr: set<Node>

    constructor ()
      ensures Valid() && fresh(repr) && entries == map[] && Contents() == map[]
    {
      entries := map[];
      repr := {this};
    }

    ghost predicate Valid()
      reads this, repr
      decreases repr
    {
      && this in repr
      && (forall k :: k in entries && entries[k].Sub? ==>
          && entries[k].node in repr
          && entries[k].node.repr < repr
          && this !in entries[k].node.repr
          && entries[k].node.Valid())
      && (forall k, l :: k in entries && l in entries && k != l && entries[k].Sub? && entries[l].Sub? ==>
          entries[k].node.repr !! entries[l].node.repr)
    }

    ghost function Contents(): Attrs
      requires Valid()
      reads this, repr
      decreases repr
    {
      map k | k in entries :: if entries[k].Sub? then Attribute.Nested(entries[k].node.Contents()) else Value(entries[k].value)
    }

    /** The nested attributes of a name, created in place of anything else. */
    method SubNode(name: string) returns (sub: Node)
      requires Valid()
      modifies this
      ensures Valid() && fresh(repr - old(repr))
      ensures name in entries && entries[name] == Sub(sub)
      ensures Contents() == old(Contents())[name := Attribute.Nested(Inside(old(Contents()), name))]
    {
      if name in entries && entries[name].Sub? {
        sub := entries[name].node;
        assert Inside(Contents(), name) == sub.Contents();
      } else {
        sub := new Node();
        entries := entries[name := Sub(sub)];
        repr := repr + sub.repr;
      }
    }

    method SetScalar(name: string, value: nat)
      requires Valid()
      modifies this
      ensures Valid() && repr == old(repr) && Contents() == old(Contents())[name := Value(value)]
    {
      entries := entries[name := Scalar(value)];
    }

    /** Sets the attribute, creating nested attributes on the way. */
    method SetAttribute(path: string, value: nat)
      requires Valid()
      modifies repr
      ensures Valid() && fresh(repr - old(repr))
      ensures Contents() == Set(old(Contents()), Split(path), Value(value))
      decreases |path|, 0
    {
      if !HasDot(path) {
        SetScalar(path, value);
        return;
      }
      var name, rest := path[..FirstDot(path)], path[FirstDot(path) + 1..];
      assert Split(path)[0] == name && Split(path)[1..] == Split(rest);
      var sub := SubNode(name);
      assert Inside(old(Contents()), name) == sub.Contents() by { assert Contents()[name] == Attribute.Nested(sub.Contents()); }
      SetBelow(name, sub, rest, value);
    }

    method SetBelow(name: string, sub: Node, rest: string, value: nat)
      requires Valid() && name in entries && entries[name] == Sub(sub)
      modifies repr
      ensures Valid() && fresh(repr - old(repr))
      ensures Contents() == old(Contents())[name := Attribute.Nested(Set(old(sub.Contents()), Split(rest), Value(value)))]
      decreases |rest|, 1
    {
      sub.SetAttribute(rest, value);
      repr := repr + sub.repr;
      forall k | k in entries && entries[k].Sub? && k != name
        ensures entries[k].node.repr == old(entries[k].node.repr) && entries[k].node.Valid()
        ensures entries[k].node.Contents() == old(entries[k].node.Contents())
      {
        assert entries[k].node in old(repr) && entries[k].node !in old(sub.repr);
      }
    }
  }

  datatype Entry = Scalar(value: nat) | Sub(node: Node)
}
