/** The parser itself: loops over a stream of tokens, proved to read what `FilterSyntax.RuleOf` says a
    JSON value means (core/filters.go:598-725). */
module FilterParser {
  import opened Prelude
  import opened FilterSyntax

  // ---- The stream, as a function of the tokens that are left --------------------------------------------

  /** Something read from the stream, and what is left of the stream. */
  datatype Read<+T> = Failed | Got(value: T, rest: seq<Token>)

  function Lift<T>(value: Option<T>, rest: seq<Token>): Read<T> {
    match value case Some(v) => Got(v, rest) case None => Failed
  }

  function ReadText(ts: seq<Token>): Read<string> {
    if ts == [] then Failed
    else if ts[0].Text? then Got(ts[0].text, ts[1..])
    else if ts[0].Null? then Got("", ts[1..])
    else Failed
  }

  /** The elements of an array of strings, up to its end. */
  function ReadTexts(ts: seq<Token>, read: seq<string>): (r: Read<seq<string>>)
    ensures r.Got? ==> |r.rest| < |ts|
  {
    if ts == [] then Failed
    else if ts[0].ArrayEnd? then Got(read, ts[1..])
    else
      match ReadText(ts)
      case Got(text, _) => ReadTexts(ts[1..], read + [text])
      case Failed => Failed
  }

  function ReadValues(ts: seq<Token>): (r: Read<Option<seq<string>>>)
    ensures r.Got? ==> |r.rest| < |ts|
  {
    if ts == [] then Failed
    else if ts[0].Null? then Got(None, ts[1..])
    else if ts[0].ArrayBegin? then
      match ReadTexts(ts[1..], [])
      case Got(texts, rest) => Got(Some(texts), rest)
      case Failed => Failed
    else Failed
  }

  /** Leaves out one value: `open` containers of it are still open. */
  function SkipValue(ts: seq<Token>, open: nat): (r: Read<()>)
    ensures r.Got? ==> |r.rest| < |ts|
  {
    if ts == [] then Failed
    else if ts[0].ObjectBegin? || ts[0].ArrayBegin? then SkipValue(ts[1..], open + 1)
    else if ts[0].ObjectEnd? || ts[0].ArrayEnd? then
      if open == 0 then Failed else if open == 1 then Got((), ts[1..]) else SkipValue(ts[1..], open - 1)
    else if open == 0 then Got((), ts[1..]) else SkipValue(ts[1..], open)
  }

  function ReadRule(ts: seq<Token>, depth: nat, expectGroup: bool): (r: Read<(Rule, nat)>)
    ensures r.Got? ==> |r.rest| < |ts|
    decreases |ts|, 1
  {
    if ts == [] || !ts[0].ObjectBegin? then Failed else ReadMembers(ts[1..], NO_FIELDS, depth, expectGroup)
  }

  /** The members of an object, up to its end. */
  function ReadMembers(ts: seq<Token>, f: Fields, depth: nat, expectGroup: bool): (r: Read<(Rule, nat)>)
    ensures r.Got? ==> |r.rest| < |ts|
    decreases |ts|, 1
  {
    if ts == [] then Failed
    else if ts[0].ObjectEnd? then Lift(Finish(f, expectGroup), ts[1..])
    else
      match ReadMember(ts, f, depth, expectGroup)
      case Got(f', rest) => ReadMembers(rest, f', depth, expectGroup)
      case Failed => Failed
  }

  function ReadMember(ts: seq<Token>, f: Fields, depth: nat, expectGroup: bool): (r: Read<Fields>)
    requires ts != []
    ensures r.Got? ==> |r.rest| < |ts|
    decreases |ts|, 0
  {
    if !ts[0].Text? then Failed
    else
      match ts[0].text
      case "operator" =>
        if f.operator.Some? then Failed
        else (match ReadText(ts[1..]) case Got(text, rest) => Got(f.(operator := Some(text)), rest) case Failed => Failed)
      case "property" =>
        if f.property.Some? then Failed
        else if expectGroup then
          (match SkipValue(ts[1..], 0) case Got(_, rest) => Got(f.(property := Some("")), rest) case Failed => Failed)
        else (match ReadText(ts[1..]) case Got(text, rest) => Got(f.(property := Some(text)), rest) case Failed => Failed)
      case "values" =>
        if f.values.Some? then Failed
        else if expectGroup then
          (match SkipValue(ts[1..], 0) case Got(_, rest) => Got(f.(values := Some(None)), rest) case Failed => Failed)
        else
          (match ReadValues(ts[1..]) case Got(values, rest) => Got(f.(values := Some(values)), rest) case Failed => Failed)
      case "rules" =>
        if f.rules.Some? || depth > MAX_DEPTH then Failed
        else
          (match ReadRules(ts[1..], depth)
           case Got(found, rest) => Got(f.(rules := Some(found.0), count := found.1), rest)
           case Failed => Failed)
      case _ => Failed
  }

  function ReadRules(ts: seq<Token>, depth: nat): (r: Read<(seq<Rule>, nat)>)
    ensures r.Got? ==> |r.rest| < |ts|
    decreases |ts|, 1
  {
    if ts == [] || !ts[0].ArrayBegin? then Failed else ReadItems(ts[1..], [], 0, depth)
  }

  /** The rules of a group, up to the end of their array. */
  function ReadItems(ts: seq<Token>, read: seq<Rule>, count: nat, depth: nat): (r: Read<(seq<Rule>, nat)>)
    ensures r.Got? ==> |r.rest| < |ts|
    decreases |ts|, 2
  {
    if ts == [] then Failed
    else if ts[0].ArrayEnd? then Got((read, count), ts[1..])
    else
      match ReadRule(ts, depth + 1, false)
      case Got(found, rest) =>
        if count + found.1 + 1 > MAX_RULES then Failed
        else ReadItems(rest, read + [found.0], count + found.1 + 1, depth)
      case Failed => Failed
  }

  // ---- What the stream of a JSON value is read as ---------------------------------------------------------

  lemma {:induction false} TextsMean(items: seq<Json>, tail: seq<Token>, read: seq<string>)
    ensures ReadTexts(ItemTokens(items) + [ArrayEnd] + tail, read) ==
      match TextsOf(items) case Some(texts) => Got(read + texts, tail) case None => Failed
  {
    var ts := ItemTokens(items) + [ArrayEnd] + tail;
    if items == [] {
      assert ts == [ArrayEnd] + tail && ts[1..] == tail && read + [] == read;
    } else {
      var rest := ItemTokens(items[1..]) + [ArrayEnd] + tail;
      assert ts == Tokens(items[0]) + rest;
      FirstToken(items[0]);
      match TextOf(items[0]) {
        case Some(text) =>
          assert ts[1..] == rest;
          TextsMean(items[1..], tail, read + [text]);
          if TextsOf(items[1..]).Some? {
            assert (read + [text]) + TextsOf(items[1..]).value == read + ([text] + TextsOf(items[1..]).value);
          }
        case None =>
      }
    }
  }

  /** The first token tells the kind of value. */
  lemma FirstToken(j: Json)
    ensures Tokens(j) != [] && !Tokens(j)[0].ArrayEnd? && !Tokens(j)[0].ObjectEnd?
    ensures Tokens(j)[0].ObjectBegin? <==> j.JObject?
    ensures Tokens(j)[0].ArrayBegin? <==> j.JArray?
    ensures Tokens(j)[0].Text? <==> j.JText?
    ensures Tokens(j)[0].Null? <==> j.JNull?
    ensures j.JText? ==> Tokens(j) == [Text(j.text)]
    ensures j.JNull? ==> Tokens(j) == [Null]
    ensures j.JArray? ==> Tokens(j)[1..] == ItemTokens(j.items) + [ArrayEnd]
    ensures j.JObject? ==> Tokens(j)[1..] == MemberTokens(j.members) + [ObjectEnd]
  {
  }

  lemma TextMeans(j: Json, tail: seq<Token>)
    ensures ReadText(Tokens(j) + tail) == Lift(TextOf(j), tail)
  {
    FirstToken(j);
    assert (Tokens(j) + tail)[0] == Tokens(j)[0];
  }

  lemma ValuesMean(j: Json, tail: seq<Token>)
    ensures ReadValues(Tokens(j) + tail) == Lift(ValuesOf(j), tail)
  {
    FirstToken(j);
    var ts := Tokens(j) + tail;
    assert ts[0] == Tokens(j)[0];
    if j.JArray? {
      assert ts[1..] == ItemTokens(j.items) + [ArrayEnd] + tail;
      TextsMean(j.items, tail, []);
      if TextsOf(j.items).Some? { assert [] + TextsOf(j.items).value == TextsOf(j.items).value; }
    }
  }

  /** Skipping a value takes exactly its tokens. */
  lemma {:induction false} SkipMeans(j: Json, tail: seq<Token>, open: nat)
    ensures SkipValue(Tokens(j) + tail, open) == if open == 0 then Got((), tail) else SkipValue(tail, open)
    decreases j, 1
  {
    FirstToken(j);
    var ts := Tokens(j) + tail;
    assert ts[0] == Tokens(j)[0];
    match j {
      case JArray(items) =>
        assert ts[1..] == ItemTokens(items) + ([ArrayEnd] + tail);
        SkipItems(items, [ArrayEnd] + tail, open + 1);
        assert ([ArrayEnd] + tail)[1..] == tail;
      case JObject(members) =>
        assert ts[1..] == MemberTokens(members) + ([ObjectEnd] + tail);
        SkipMembers(members, [ObjectEnd] + tail, open + 1);
        assert ([ObjectEnd] + tail)[1..] == tail;
      case _ => assert ts[1..] == tail;
    }
  }

  lemma {:induction false} SkipItems(items: seq<Json>, tail: seq<Token>, open: nat)
    requires open > 0
    ensures SkipValue(ItemTokens(items) + tail, open) == SkipValue(tail, open)
    decreases items, 0
  {
    if items == [] {
      assert ItemTokens(items) + tail == tail;
    } else {
      assert ItemTokens(items) + tail == Tokens(items[0]) + (ItemTokens(items[1..]) + tail);
      SkipMeans(items[0], ItemTokens(items[1..]) + tail, open);
      SkipItems(items[1..], tail, open);
    }
  }

  lemma {:induction false} SkipMembers(members: seq<Member>, tail: seq<Token>, open: nat)
    requires open > 0
    ensures SkipValue(MemberTokens(members) + tail, open) == SkipValue(tail, open)
    decreases members, 0
  {
    if members == [] {
      assert MemberTokens(members) + tail == tail;
    } else {
      var rest := Tokens(members[0].value) + (MemberTokens(members[1..]) + tail);
      assert MemberTokens(members) + tail == [Text(members[0].key)] + rest;
      assert ([Text(members[0].key)] + rest)[1..] == rest;
      SkipMeans(members[0].value, MemberTokens(members[1..]) + tail, open);
      SkipMembers(members[1..], tail, open);
    }
  }

  /** Reading the tokens of a value yields what the value means, and leaves what follows it. */
  lemma {:induction false} StreamMeans(j: Json, tail: seq<Token>, depth: nat, expectGroup: bool)
    ensures ReadRule(Tokens(j) + tail, depth, expectGroup) == Lift(RuleOf(j, depth, expectGroup), tail)
    decreases j, 3
  {
    FirstToken(j);
    var ts := Tokens(j) + tail;
    assert ts[0] == Tokens(j)[0];
    if j.JObject? {
      assert ts[1..] == MemberTokens(j.members) + [ObjectEnd] + tail;
      MembersMean(j.members, tail, NO_FIELDS, depth, expectGroup);
    }
  }

  lemma {:induction false} MembersMean(members: seq<Member>, tail: seq<Token>, f: Fields, depth: nat, expectGroup: bool)
    ensures ReadMembers(MemberTokens(members) + [ObjectEnd] + tail, f, depth, expectGroup) ==
      match FieldsOf(members, f, depth, expectGroup)
      case Some(f') => Lift(Finish(f', expectGroup), tail)
      case None => Failed
    decreases members, 0
  {
    var ts := MemberTokens(members) + [ObjectEnd] + tail;
    if members == [] {
      assert ts == [ObjectEnd] + tail && ts[1..] == tail;
    } else {
      var rest := MemberTokens(members[1..]) + [ObjectEnd] + tail;
      assert ts == [Text(members[0].key)] + Tokens(members[0].value) + rest;
      MemberMeans(members[0], rest, f, depth, expectGroup);
      match WithMember(f, members[0], depth, expectGroup)
      case Some(f') => MembersMean(members[1..], tail, f', depth, expectGroup);
      case None =>
    }
  }

  lemma {:induction false} MemberMeans(m: Member, rest: seq<Token>, f: Fields, depth: nat, expectGroup: bool)
    ensures ReadMember([Text(m.key)] + Tokens(m.value) + rest, f, depth, expectGroup) ==
            Lift(WithMember(f, m, depth, expectGroup), rest)
    decreases m, 4
  {
    var ts := [Text(m.key)] + Tokens(m.value) + rest;
    assert ts[1..] == Tokens(m.value) + rest;
    TextMeans(m.value, rest);
    ValuesMean(m.value, rest);
    SkipMeans(m.value, rest, 0);
    RulesMean(m.value, rest, depth);
  }

  lemma {:induction false} RulesMean(j: Json, tail: seq<Token>, depth: nat)
    ensures ReadRules(Tokens(j) + tail, depth) == Lift(if j.JArray? then RulesOf(j.items, [], 0, depth) else None, tail)
    decreases j, 3
  {
    FirstToken(j);
    var ts := Tokens(j) + tail;
    assert ts[0] == Tokens(j)[0];
    if j.JArray? {
      assert ts[1..] == ItemTokens(j.items) + [ArrayEnd] + tail;
      ItemsMean(j.items, tail, [], 0, depth);
    }
  }

  lemma {:induction false} ItemsMean(items: seq<Json>, tail: seq<Token>, read: seq<Rule>, count: nat, depth: nat)
    ensures ReadItems(ItemTokens(items) + [ArrayEnd] + tail, read, count, depth) == Lift(RulesOf(items, read, count, depth), tail)
    decreases items, 0
  {
    var ts := ItemTokens(items) + [ArrayEnd] + tail;
    if items == [] {
      assert ts == [ArrayEnd] + tail && ts[1..] == tail;
    } else {
      var rest := ItemTokens(items[1..]) + [ArrayEnd] + tail;
      assert ts == Tokens(items[0]) + rest;
      FirstToken(items[0]);
      StreamMeans(items[0], rest, depth + 1, false);
      match RuleOf(items[0], depth + 1, false)
      case Some((rule, below)) =>
        if count + below + 1 <= MAX_RULES { ItemsMean(items[1..], tail, read + [rule], count + below + 1, depth); }
      case None =>
    }
  }

  /** Reading the printed tokens of a filter returns the same filter, absent and empty values told
      apart, if it has at most four levels and a hundred rules; otherwise reading fails. */
  lemma ParseOfPrint(r: Rule, tail: seq<Token>)
    requires r.Group?
    ensures ReadRule(Tokens(Printed(r)) + tail, 1, true) ==
      if Levels(r) <= MAX_DEPTH && Count(r) <= MAX_RULES then Got((r, Count(r)), tail) else Failed
  {
    StreamMeans(Printed(r), tail, 1, true);
    RoundTrip(r, 1, true);
  }

  /** What a document is read as does not depend on the order of the keys in its objects. */
  lemma ParseIgnoresKeyOrder(a: Json, b: Json, tail: seq<Token>)
    requires SameUpToOrder(a, b)
    ensures ReadRule(Tokens(a) + tail, 1, true) == ReadRule(Tokens(b) + tail, 1, true)
  {
    StreamMeans(a, tail, 1, true);
    StreamMeans(b, tail, 1, true);
    KeyOrderDoesNotMatter(a, b, 1, true);
  }

  // ---- The printer ------------------------------------------------------------------------------------------

  lemma {:induction false} ItemTokensSnoc(items: seq<Json>, last: Json)
    ensures ItemTokens(items + [last]) == ItemTokens(items) + Tokens(last)
  {
    if items == [] {
      assert [last][1..] == [];
      assert [] + [last] == [last];
    } else {
      assert (items + [last])[1..] == items[1..] + [last];
      ItemTokensSnoc(items[1..], last);
    }
  }

  lemma {:induction false} PrintedAllSnoc(rules: seq<Rule>, last: Rule)
    ensures PrintedAll(rules + [last]) == PrintedAll(rules) + [Printed(last)]
  {
    if rules == [] {
      assert [last][1..] == [];
      assert [] + [last] == [last];
    } else {
      assert (rules + [last])[1..] == rules[1..] + [last];
      PrintedAllSnoc(rules[1..], last);
    }
  }

  lemma {:induction false} TextTokens(values: seq<string>)
    ensures ItemTokens(Texts(values)) == seq(|values|, i requires 0 <= i < |values| => Text(values[i]))
  {
    if values != [] {
      TextTokens(values[1..]);
      assert Texts(values)[1..] == Texts(values[1..]);
    }
  }

  /** Writes a rule, the rules of a group one after the other. */
  method Marshal(r: Rule) returns (b: seq<Token>)
    ensures b == Tokens(Printed(r))
    decreases r
  {
    if r.Condition? {
      b := MarshalCondition(r);
      return;
    }
    b := [ObjectBegin, Text("operator"), Text(r.operator), Text("rules"), ArrayBegin];
    for i := 0 to |r.rules|
      invariant b == [ObjectBegin, Text("operator"), Text(r.operator), Text("rules"), ArrayBegin] + ItemTokens(PrintedAll(r.rules[..i]))
    {
      var written := Marshal(r.rules[i]);
      b := b + written;
      assert r.rules[..i + 1] == r.rules[..i] + [r.rules[i]];
      PrintedAllSnoc(r.rules[..i], r.rules[i]);
      ItemTokensSnoc(PrintedAll(r.rules[..i]), Printed(r.rules[i]));
    }
    assert r.rules[..|r.rules|] == r.rules;
    b := b + [ArrayEnd, ObjectEnd];
    GroupTokens(r);
  }

  lemma GroupTokens(r: Rule)
    requires r.Group?
    ensures Tokens(Printed(r)) == [ObjectBegin, Text("operator"), Text(r.operator), Text("rules"), ArrayBegin]
                                  + ItemTokens(PrintedAll(r.rules)) + [ArrayEnd, ObjectEnd]
  {
    var ms := Printed(r).members;
    assert ms[1..] == [ms[1]] && ms[1..][1..] == [];
    assert MemberTokens(ms[1..]) == [Text("rules")] + Tokens(ms[1].value);
    assert MemberTokens(ms) == [Text("operator")] + Tokens(ms[0].value) + MemberTokens(ms[1..]);
    assert Tokens(ms[1].value) == [ArrayBegin] + ItemTokens(PrintedAll(r.rules)) + [ArrayEnd];
  }

  method MarshalCondition(r: Rule) returns (b: seq<Token>)
    requires r.Condition?
    ensures b == Tokens(Printed(r))
  {
    b := [ObjectBegin, Text("property"), Text(r.property), Text("operator"), Text(r.operator)];
    if r.values.Some? {
      var values := r.values.value;
      b := b + [Text("values"), ArrayBegin];
      ghost var start := b;
      for i := 0 to |values|
        invariant b == start + seq(i, k requires 0 <= k < i => Text(values[k]))
      {
        b := b + [Text(values[i])];
      }
      b := b + [ArrayEnd];
      TextTokens(values);
    }
    b := b + [ObjectEnd];
    ConditionTokens(r);
  }

  lemma ConditionTokens(r: Rule)
    requires r.Condition?
    ensures Tokens(Printed(r)) ==
      [ObjectBegin, Text("property"), Text(r.property), Text("operator"), Text(r.operator)]
      + (if r.values.Some? then [Text("values"), ArrayBegin] + ItemTokens(Texts(r.values.value)) + [ArrayEnd] else [])
      + [ObjectEnd]
  {
    var ms := Printed(r).members;
    assert MemberTokens(ms) == [Text("property"), Text(r.property)] + MemberTokens(ms[1..]);
    assert MemberTokens(ms[1..]) == [Text("operator"), Text(r.operator)] + MemberTokens(ms[1..][1..]);
    assert ms[1..][1..] == ms[2..];
    if r.values.Some? {
      assert ms[2..] == [ms[2]] && ms[2..][1..] == [];
      assert MemberTokens(ms[2..]) == [Text("values")] + Tokens(ms[2].value);
    } else {
      assert ms[2..] == [];
    }
  }

  // ---- The loops -----------------------------------------------------------------------------------------------

  /** A decoder over the tokens that are left. */
  class Decoder {
    var rest: seq<Token>

    constructor (tokens: seq<Token>)
      ensures rest == tokens
    {
      rest := tokens;
    }

    method ReadToken() returns (token: Option<Token>)
      modifies this
      ensures old(rest) == [] ==> token == None && rest == []
      ensures old(rest) != [] ==> token == Some(old(rest)[0]) && rest == old(rest)[1..]
    {
      if |rest| == 0 {
        return None;
      }
      token := Some(rest[0]);
      rest := rest[1..];
    }

    /** Whether the next token is there and closes an object. */
    predicate AtObjectEnd()
      reads this
    {
      rest != [] && rest[0].ObjectEnd?
    }

    predicate AtArrayEnd()
      reads this
    {
      rest != [] && rest[0].ArrayEnd?
    }

    method DecodeText() returns (text: Option<string>)
      modifies this
      ensures match ReadText(old(rest))
              case Got(value, left) => text == Some(value) && rest == left
              case Failed => text == None
    {
      var token := ReadToken();
      match token
      case Some(Text(value)) => return Some(value);
      case Some(Null) => return Some("");
      case _ => return None;
    }

    method DecodeTexts() returns (texts: Option<Option<seq<string>>>)
      modifies this
      ensures match ReadValues(old(rest))
              case Got(value, left) => texts == Some(value) && rest == left
              case Failed => texts == None
    {
      var token := ReadToken();
      if token == Some(Null) {
        return Some(None);
      }
      if token != Some(ArrayBegin) {
        return None;
      }
      var read: seq<string> := [];
      ghost var start := rest;
      while !AtArrayEnd()
        invariant ReadTexts(rest, read) == ReadTexts(start, [])
        decreases |rest|
      {
        var text := DecodeText();
        if text.None? {
          return None;
        }
        read := read + [text.value];
      }
      var _ := ReadToken();
      return Some(Some(read));
    }

    /** Skips one value, counting the containers that are open. */
    method Skip() returns (ok: bool)
      modifies this
      ensures match SkipValue(old(rest), 0)
              case Got(_, left) => ok && rest == left
              case Failed => !ok
    {
      var open: nat := 0;
      ghost var start := rest;
      while true
        invariant SkipValue(rest, open) == SkipValue(start, 0)
        decreases |rest|
      {
        var token := ReadToken();
        if token.None? {
          return false;
        }
        var t := token.value;
        if t.ObjectBegin? || t.ArrayBegin? {
          open := open + 1;
        } else {
          if t.ObjectEnd? || t.ArrayEnd? {
            if open == 0 {
              return false;
            }
            open := open - 1;
          }
          if open == 0 {
            return true;
          }
        }
      }
    }

    /** Reads one rule; `expectGroup` demands a group, and makes the keys of a condition be skipped. */
    method UnmarshalRule(depth: nat, expectGroup: bool) returns (result: Option<(Rule, nat)>)
      modifies this
      ensures match ReadRule(old(rest), depth, expectGroup)
              case Got(found, left) => result == Some(found) && rest == left
              case Failed => result == None
      decreases |rest|, 1
    {
      var token := ReadToken();
      if token != Some(ObjectBegin) {
        return None;
      }
      var f := NO_FIELDS;
      ghost var start := rest;
      while !AtObjectEnd()
        invariant |rest| <= |start|
        invariant ReadMembers(rest, f, depth, expectGroup) == ReadMembers(start, NO_FIELDS, depth, expectGroup)
        decreases |rest|
      {
        token := ReadToken();
        if token.None? || !token.value.Text? {
          return None;
        }
        match token.value.text {
          case "operator" =>
            if f.operator.Some? {
              return None;
            }
            var text := DecodeText();
            if text.None? {
              return None;
            }
            f := f.(operator := text);
          case "property" =>
            if f.property.Some? {
              return None;
            }
            if expectGroup {
              var ok := Skip();
              if !ok {
                return None;
              }
              f := f.(property := Some(""));
            } else {
              var text := DecodeText();
              if text.None? {
                return None;
              }
              f := f.(property := text);
            }
          case "values" =>
            if f.values.Some? {
              return None;
            }
            if expectGroup {
              var ok := Skip();
              if !ok {
                return None;
              }
              f := f.(values := Some(None));
            } else {
              var texts := DecodeTexts();
              if texts.None? {
                return None;
              }
              f := f.(values := texts);
            }
          case "rules" =>
            if f.rules.Some? || depth > MAX_DEPTH {
              return None;
            }
            var found := UnmarshalRules(depth);
            if found.None? {
              return None;
            }
            f := f.(rules := Some(found.value.0), count := found.value.1);
          case _ => return None;
        }
      }
      var _ := ReadToken();
      return Finish(f, expectGroup);
    }

    /** Reads the rules of a group, counting them with their descendants as it goes. */
    method UnmarshalRules(depth: nat) returns (result: Option<(seq<Rule>, nat)>)
      modifies this
      ensures match ReadRules(old(rest), depth)
              case Got(found, left) => result == Some(found) && rest == left
              case Failed => result == None
      decreases |rest|, 1
    {
      var token := ReadToken();
      if token != Some(ArrayBegin) {
        return None;
      }
      var rules: seq<Rule> := [];
      var count: nat := 0;
      ghost var start := rest;
      while !AtArrayEnd()
        invariant |rest| <= |start|
        invariant ReadItems(rest, rules, count, depth) == ReadItems(start, [], 0, depth)
        decreases |rest|
      {
        var found := UnmarshalRule(depth + 1, false);
        if found.None? {
          return None;
        }
        count := count + found.value.1 + 1;
        if count > MAX_RULES {
          return None;
        }
        rules := rules + [found.value.0];
      }
      var _ := ReadToken();
      return Some((rules, count));
    }
  }
}
