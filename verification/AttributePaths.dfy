/** Property paths: which ones a transformation may write, and why the matching value that an export
    sets afterwards never overwrites a transformed value (core/pipeline_validate.go:366-388,
    core/pipeline_validate.go:779-802, core/pipeline_validate.go:961-990, core/run_export.go:558-592). */
module AttributePaths {
  import opened Prelude
  import opened Strings
  import opened Schemas

  /** `a` names `b` or one of its parents. */
  predicate Covers(a: string, b: string) { Split(a) <= Split(b) }

  // ---- Dots and prefixes -----------------------------------------------------------------------------------

  /** `b` extends `a`: the test, on the strings, for sub-paths. */
  predicate IsSubPath(a: string, b: string) { |a| < |b| && b[|a|] == '.' && b[..|a|] == a }

  lemma {:induction false} JoinConcat(a: seq<string>, b: seq<string>)
    requires a != [] && b != []
    ensures Join(a + b) == Join(a) + "." + Join(b)
  {
    if |a| == 1 {
      assert (a + b)[1..] == b;
    } else {
      assert (a + b)[1..] == a[1..] + b;
      JoinConcat(a[1..], b);
    }
  }

  lemma SplitAtDot(a: string, b: string)
    ensures Split(a + "." + b) == Split(a) + Split(b)
  {
    JoinOfSplit(a);
    JoinOfSplit(b);
    JoinConcat(Split(a), Split(b));
    SplitOfJoin(Split(a) + Split(b));
  }

  lemma SplitInjective(a: string, b: string)
    requires Split(a) == Split(b)
    ensures a == b
  {
    JoinOfSplit(a);
    JoinOfSplit(b);
  }

  /** Testing for a dot after a prefix is testing for a proper prefix of the names. */
  lemma SubPathIsProperPrefix(a: string, b: string)
    ensures IsSubPath(a, b) <==> Split(a) < Split(b)
  {
    if IsSubPath(a, b) {
      assert b == a + "." + b[|a| + 1..];
      SplitAtDot(a, b[|a| + 1..]);
    }
    if Split(a) < Split(b) { ProperPrefixIsSubPath(a, b); }
  }

  lemma ProperPrefixIsSubPath(a: string, b: string)
    requires Split(a) < Split(b)
    ensures IsSubPath(a, b)
  {
    var rest := Split(b)[|Split(a)|..];
    JoinOfSplit(a);
    JoinOfSplit(b);
    assert Split(b) == Split(a) + rest;
    JoinConcat(Split(a), rest);
    assert b == a + "." + Join(rest);
  }

  lemma CoversIsEqualOrSubPath(a: string, b: string)
    ensures Covers(a, b) <==> a == b || IsSubPath(a, b)
  {
    SubPathIsProperPrefix(a, b);
    if Split(a) == Split(b) { SplitInjective(a, b); }
  }

  // ---- The paths of a transformation function -----------------------------------------------------------------

  datatype PathError = Null | NoPaths | Invalid | Repeated | Nested | NotFound

  /** No path is, or is below, another one. */
  predicate Independent(paths: seq<string>) {
    forall i, j :: 0 <= i < |paths| && 0 <= j < |paths| && i != j ==> !Covers(paths[i], paths[j])
  }

  predicate InSchema(schema: Option<seq<Property>>, path: string) {
    schema.Some? ==> ByPath(schema.value, Split(path)).Some?
  }

  /** The paths of a function can be absent (null), or a list. An absent schema is not looked at. */
  method ValidatePaths(input: bool, schema: Option<seq<Property>>, paths: Option<seq<string>>, allowConstant: bool)
    returns (error: Option<PathError>)
    ensures error.None? <==>
      && paths.Some?
      && (paths.value == [] ==> allowConstant && input)
      && (forall i :: 0 <= i < |paths.value| ==> ValidPath(paths.value[i]) && InSchema(schema, paths.value[i]))
      && Independent(paths.value)
  {
    if paths.None? {
      return Some(Null);
    }
    var ps := paths.value;
    if |ps| == 0 {
      return if allowConstant && input then None else Some(NoPaths);
    }
    for i := 0 to |ps|
      invariant forall k :: 0 <= k < i ==> ValidPath(ps[k])
    {
      if !ValidPath(ps[i]) {
        return Some(Invalid);
      }
    }
    for i := 0 to |ps|
      invariant forall k, l :: 0 <= k < i && 0 <= l < |ps| && k != l ==> !Covers(ps[k], ps[l])
    {
      for j := 0 to |ps|
        invariant forall l :: 0 <= l < j && i != l ==> !Covers(ps[i], ps[l])
      {
        var p, p2 := ps[i], ps[j];
        CoversIsEqualOrSubPath(p, p2);
        if i == j || |p2| < |p| {
          continue;
        }
        if |p2| == |p| {
          if p == p2 {
            return Some(Repeated);
          }
          continue;
        }
        if p2[|p|] == '.' && p2[..|p|] == p {
          return Some(Nested);
        }
      }
    }
    if schema.Some? {
      for i := 0 to |ps|
        invariant forall k :: 0 <= k < i ==> InSchema(schema, ps[k])
      {
        if ByPath(schema.value, Split(ps[i])).None? {
          return Some(NotFound);
        }
      }
    }
    return None;
  }

  /** Walks from the matching path up through its parents; false if one of them is transformed. */
  method MatchingUntransformed(matching: string, paths: seq<string>) returns (ok: bool)
    ensures ok <==> forall i :: 0 <= i < |paths| ==> !Covers(paths[i], matching)
  {
    var path := matching;
    while true
      invariant Covers(path, matching)
      invariant forall a :: Covers(a, matching) && a in paths ==> Covers(a, path)
      decreases |path|
    {
      if path in paths {
        return false;
      }
      var dot := LastDot(path);
      if dot == -1 {
        assert forall a :: Covers(a, matching) && a in paths ==> false by {
          forall a | Covers(a, matching) && a in paths ensures false { NoParent(path, a); }
        }
        return true;
      }
      var parent := path[..dot];
      ParentCovers(path, dot);
      forall a | Covers(a, matching) && a in paths ensures Covers(a, parent) { NextParent(path, dot, a); }
      path := parent;
    }
  }

  /** The index of the last dot, or -1. */
  function LastDot(s: string): (i: int)
    ensures -1 <= i < |s|
    ensures if i == -1 then !HasDot(s) else s[i] == '.' && '.' !in s[i + 1..]
  {
    if s == "" then -1
    else if s[|s| - 1] == '.' then |s| - 1
    else
      var i := LastDot(s[..|s| - 1]);
      assert s == s[..|s| - 1] + [s[|s| - 1]];
      assert i >= 0 ==> s[i + 1..] == s[..|s| - 1][i + 1..] + [s[|s| - 1]];
      i
  }

  lemma NoParent(path: string, a: string)
    requires !HasDot(path) && Covers(a, path)
    ensures a == path
  {
    assert Split(path) == [path];
    assert |Split(a)| == 1 && Split(a)[0] == path;
    SplitInjective(a, path);
  }

  lemma ParentCovers(path: string, dot: nat)
    requires dot < |path| && path[dot] == '.' && '.' !in path[dot + 1..]
    ensures Split(path) == Split(path[..dot]) + [path[dot + 1..]]
    ensures Covers(path[..dot], path)
  {
    var parent, name := path[..dot], path[dot + 1..];
    assert path == parent + "." + name;
    SplitAtDot(parent, name);
    assert Split(name) == [name];
  }

  lemma NextParent(path: string, dot: nat, a: string)
    requires dot < |path| && path[dot] == '.' && '.' !in path[dot + 1..]
    requires Covers(a, path) && a != path
    ensures Covers(a, path[..dot])
  {
    ParentCovers(path, dot);
    var x, y := Split(a), Split(path);
    if x == y { SplitInjective(a, path); }
    assert x <= y && x != y;
    assert |x| < |y| && x == y[..|x|];
    assert y[..|y| - 1] == Split(path[..dot]);
  }
}
