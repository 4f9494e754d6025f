/** Dotted paths, and the order of strings. */
module Strings {

  predicate HasDot(s: string) { '.' in s }

  /** The index of the first dot. */
  function FirstDot(s: string): (i: nat)
    requires HasDot(s)
    ensures i < |s| && s[i] == '.' && '.' !in s[..i]
  {
    if s[0] == '.' then 0 else 1 + FirstDot(s[1..])
  }

  /** The names between the dots. */
  function Split(s: string): (names: seq<string>)
    ensures names != []
    ensures forall i :: 0 <= i < |names| ==> !HasDot(names[i])
    decreases |s|
  {
    if HasDot(s) then [s[..FirstDot(s)]] + Split(s[FirstDot(s) + 1..]) else [s]
  }

  function Join(names: seq<string>): string
    requires names != []
  {
    if |names| == 1 then names[0] else names[0] + "." + Join(names[1..])
  }

  lemma JoinCons(name: string, names: seq<string>)
    requires names != []
    ensures Join([name] + names) == name + "." + Join(names)
  {
    assert ([name] + names)[1..] == names;
  }

  lemma {:induction false} JoinOfSplit(s: string)
    ensures Join(Split(s)) == s
    decreases |s|
  {
    if HasDot(s) {
      var i := FirstDot(s);
      JoinOfSplit(s[i + 1..]);
      JoinCons(s[..i], Split(s[i + 1..]));
      assert s == s[..i] + "." + s[i + 1..];
    }
  }

  lemma {:induction false} SplitOfJoin(names: seq<string>)
    requires names != [] && forall i :: 0 <= i < |names| ==> !HasDot(names[i])
    ensures Split(Join(names)) == names
  {
    if |names| > 1 {
      SplitOfJoin(names[1..]);
      assert names == [names[0]] + names[1..];
      SplitCons(names[0], Join(names[1..]));
    }
  }

  lemma SplitCons(name: string, rest: string)
    requires !HasDot(name)
    ensures Split(name + "." + rest) == [name] + Split(rest)
  {
    var s := name + "." + rest;
    assert s[..|name|] == name && s[|name|] == '.';
    FirstDotIs(s, |name|);
    assert s[|name| + 1..] == rest;
  }

  lemma FirstDotIs(s: string, i: nat)
    requires i < |s| && s[i] == '.' && '.' !in s[..i]
    ensures FirstDot(s) == i
  {
  }

  // ---- Order ---------------------------------------------------------------------------------------------

  /** Byte-wise order, as the comparison of strings. */
  predicate Less(a: string, b: string) {
    if b == "" then false
    else if a == "" then true
    else if a[0] == b[0] then Less(a[1..], b[1..])
    else a[0] < b[0]
  }

  lemma {:induction false} LessTotal(a: string, b: string)
    ensures a == b || Less(a, b) || Less(b, a)
    ensures !(Less(a, b) && Less(b, a)) && !Less(a, a)
    decreases |a| + |b|
  {
    if a != "" && b != "" && a[0] == b[0] {
      LessTotal(a[1..], b[1..]);
      assert a[1..] == b[1..] ==> a == [a[0]] + a[1..] == b;
    }
    LessIrreflexive(a);
  }

  lemma {:induction false} LessIrreflexive(a: string)
    ensures !Less(a, a)
  {
    if a != "" { LessIrreflexive(a[1..]); }
  }

  lemma {:induction false} LessTransitive(a: string, b: string, c: string)
    requires Less(a, b) && Less(b, c)
    ensures Less(a, c)
    decreases |a|
  {
    if a != "" && b != "" && c != "" && a[0] == b[0] == c[0] { LessTransitive(a[1..], b[1..], c[1..]); }
  }

  /** Strictly increasing: sorted, without duplicates. */
  ghost predicate Sorted(s: seq<string>) {
    forall i, j :: 0 <= i < j < |s| ==> Less(s[i], s[j])
  }
}
