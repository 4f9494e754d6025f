/** The loops that escape by segments: query values (connectors/bodybuffer.go:302-366) and the string literals of
    ClickHouse (connectors/clickhouse/quote.go:42-66). Each equals escaping byte by byte, and is undone by reading. */
module Escaping {
  import opened Prelude

  // ---- Query values ------------------------------------------------------------------------------------------------

  /** The unreserved characters: section 2.3 of RFC 3986. */
  predicate Unreserved(c: byte) {
    || 'A' as byte <= c <= 'Z' as byte || 'a' as byte <= c <= 'z' as byte || '0' as byte <= c <= '9' as byte
    || c in ['-' as byte, '.' as byte, '_' as byte, '~' as byte]
  }

  const PLUS := '+' as byte
  const PERCENT := '%' as byte
  const SPACE := ' ' as byte

  function HexDigit(n: nat): (c: byte)
    requires n < 16
  {
    if n < 10 then '0' as byte + n as byte else 'A' as byte + (n - 10) as byte
  }

  /** Percent-encoding: section 2.1 of RFC 3986; but a space is a plus. */
  function EscapeByte(c: byte): seq<byte> {
    if Unreserved(c) then [c]
    else if c == SPACE then [PLUS]
    else [PERCENT, HexDigit(c as int / 16), HexDigit(c as int % 16)]
  }

  function Escaped(s: seq<byte>): seq<byte> {
    if s == [] then [] else Escaped(s[..|s| - 1]) + EscapeByte(s[|s| - 1])
  }

  lemma Associate<T>(a: seq<T>, b: seq<T>, c: seq<T>)
    ensures a + b + c == a + (b + c)
  {
  }

  lemma EscapedSnoc(s: seq<byte>, c: byte)
    ensures Escaped(s + [c]) == Escaped(s) + EscapeByte(c)
  {
    assert (s + [c])[..|s|] == s;
  }

  lemma {:induction false} EscapedConcat(s: seq<byte>, t: seq<byte>)
    ensures Escaped(s + t) == Escaped(s) + Escaped(t)
  {
    if t == [] {
      assert s + t == s;
    } else {
      var init, c := t[..|t| - 1], t[|t| - 1];
      EscapedConcat(s, init);
      assert t == init + [c];
      Associate(s, init, [c]);
      EscapedSnoc(s + init, c);
      Associate(Escaped(s), Escaped(init), EscapeByte(c));
    }
  }

  lemma {:induction false} UnreservedIsCopied(s: seq<byte>)
    requires forall i :: 0 <= i < |s| ==> Unreserved(s[i])
    ensures Escaped(s) == s
  {
    if s != [] {
      UnreservedIsCopied(s[..|s| - 1]);
      assert s == s[..|s| - 1] + [s[|s| - 1]];
    }
  }

  /** Keeps the segment s[start..i] of unreserved bytes until it ends, and then copies it at once. */
  method QueryEscape(s: seq<byte>) returns (out: seq<byte>)
    ensures out == Escaped(s)
  {
    out := [];
    var start := 0;
    for i := 0 to |s|
      invariant start <= i
      invariant forall k :: start <= k < i ==> Unreserved(s[k])
      invariant out == Escaped(s[..start])
    {
      var c := s[i];
      if Unreserved(c) {
        continue;
      }
      SegmentEnds(s, start, i);
      if start < i {
        out := out + s[start..i];
      }
      start := i + 1;
      if c == SPACE {
        out := out + [PLUS];
        continue;
      }
      out := WriteEncoded(out, c);
    }
    LastSegment(s, start);
    if start < |s| {
      out := out + s[start..];
    }
  }

  lemma LastSegment(s: seq<byte>, start: nat)
    requires start <= |s| && forall k :: start <= k < |s| ==> Unreserved(s[k])
    ensures Escaped(s) == if start < |s| then Escaped(s[..start]) + s[start..] else Escaped(s[..start])
  {
    SegmentEscaped(s, start, |s|);
    assert s[..|s|] == s && s[start..|s|] == s[start..];
  }

  lemma SegmentEscaped(s: seq<byte>, start: nat, i: nat)
    requires start <= i <= |s| && forall k :: start <= k < i ==> Unreserved(s[k])
    ensures Escaped(s[..i]) == Escaped(s[..start]) + s[start..i]
  {
    assert s[..i] == s[..start] + s[start..i];
    EscapedConcat(s[..start], s[start..i]);
    UnreservedIsCopied(s[start..i]);
  }

  method WriteEncoded(out: seq<byte>, c: byte) returns (written: seq<byte>)
    requires !Unreserved(c) && c != SPACE
    ensures written == out + EscapeByte(c)
  {
    written := out + [PERCENT];
    written := written + [HexDigit(c as int / 16)];
    written := written + [HexDigit(c as int % 16)];
  }

  lemma SegmentEnds(s: seq<byte>, start: nat, i: nat)
    requires start <= i < |s| && forall k :: start <= k < i ==> Unreserved(s[k])
    ensures Escaped(s[..i + 1]) == Escaped(s[..start]) + s[start..i] + EscapeByte(s[i])
    ensures start == i ==> Escaped(s[..i + 1]) == Escaped(s[..start]) + EscapeByte(s[i])
  {
    SegmentEscaped(s, start, i);
    assert s[..i + 1] == s[..i] + [s[i]];
    EscapedSnoc(s[..i], s[i]);
  }

  function HexValue(c: byte): Option<nat> {
    if '0' as byte <= c <= '9' as byte then Some((c - '0' as byte) as nat)
    else if 'A' as byte <= c <= 'F' as byte then Some((c - 'A' as byte) as nat + 10)
    else if 'a' as byte <= c <= 'f' as byte then Some((c - 'a' as byte) as nat + 10)
    else None
  }

  /** How the value of a form is decoded: a plus is a space, and a percent sign starts an encoded byte. */
  function Decoded(s: seq<byte>): Option<seq<byte>> {
    if s == [] then Some([])
    else if s[0] == PERCENT then
      if |s| < 3 || HexValue(s[1]).None? || HexValue(s[2]).None? then None
      else
        match Decoded(s[3..])
        case None => None
        case Some(rest) => Some([(HexValue(s[1]).value * 16 + HexValue(s[2]).value) as byte] + rest)
    else
      match Decoded(s[1..])
      case None => None
      case Some(rest) => Some([if s[0] == PLUS then SPACE else s[0]] + rest)
  }

  lemma DecodedByte(c: byte, rest: seq<byte>)
    requires Decoded(rest).Some?
    ensures Decoded(EscapeByte(c) + rest) == Some([c] + Decoded(rest).value)
  {
    var s := EscapeByte(c) + rest;
    if Unreserved(c) || c == SPACE {
      assert s[1..] == rest;
    } else {
      assert s[3..] == rest;
      assert HexValue(HexDigit(c as int / 16)) == Some(c as int / 16);
      assert HexValue(HexDigit(c as int % 16)) == Some(c as int % 16);
    }
  }

  /** Decoding what was escaped, whatever follows it, gives it back. */
  lemma {:induction false} DecodedEscaped(s: seq<byte>, rest: seq<byte>)
    requires Decoded(rest).Some?
    ensures Decoded(Escaped(s) + rest) == Some(s + Decoded(rest).value)
    decreases |s|
  {
    if s == [] {
      assert Escaped(s) + rest == rest && s + Decoded(rest).value == Decoded(rest).value;
    } else {
      var init, c := s[..|s| - 1], s[|s| - 1];
      DecodedByte(c, rest);
      DecodedEscaped(init, EscapeByte(c) + rest);
      Associate(Escaped(init), EscapeByte(c), rest);
      assert init + [c] == s;
      Associate(init, [c], Decoded(rest).value);
    }
  }

  const HEX := ['0', '1', '2', '3', '4', '5', '6', '7', '8', '9', 'A', 'B', 'C', 'D', 'E', 'F']

  /** What comes of one byte: letters, digits and four signs stay, a space is a plus, and any other is a percent sign with
      its two digits, the higher first. */
  lemma OneByte(c: byte)
    ensures
      var x := c as char;
      Escaped([c]) ==
      if 'A' <= x <= 'Z' || 'a' <= x <= 'z' || '0' <= x <= '9' || x == '-' || x == '.' || x == '_' || x == '~' then [c]
      else if x == ' ' then ['+' as byte]
      else ['%' as byte, HEX[c as int / 16] as byte, HEX[c as int % 16] as byte]
  {
    assert [c][..0] == [] && Escaped([]) == [];
  }

  lemma EscapingIsUndone(s: seq<byte>)
    ensures Decoded(Escaped(s)) == Some(s)
  {
    DecodedEscaped(s, []);
    assert Escaped(s) + [] == Escaped(s) && s + [] == s;
  }

  /** Nothing in the result can end the value, or separate it from another one. */
  lemma {:induction false} EscapedIsSafe(s: seq<byte>)
    ensures forall i :: 0 <= i < |Escaped(s)| ==> Unreserved(Escaped(s)[i]) || Escaped(s)[i] in [PLUS, PERCENT]
  {
    if s != [] { EscapedIsSafe(s[..|s| - 1]); }
  }

  // ---- String literals ---------------------------------------------------------------------------------------------

  const QUOTE := '\''
  const BACKSLASH := '\\'

  predicate Special(c: char) { c == BACKSLASH || c == QUOTE }

  function QuoteChar(c: char): string { if Special(c) then [BACKSLASH, c] else [c] }

  /** The text between the quotes. */
  function QuotedText(s: string): string { if s == "" then "" else QuoteChar(s[0]) + QuotedText(s[1..]) }

  function Quoted(s: string): string { [QUOTE] + QuotedText(s) + [QUOTE] }

  /** The first special character, or the length. */
  function IndexSpecial(s: string): (p: nat)
    ensures p <= |s| && (p < |s| ==> Special(s[p]))
    ensures forall i :: 0 <= i < p ==> !Special(s[i])
  {
    if s == "" || Special(s[0]) then 0 else 1 + IndexSpecial(s[1..])
  }

  lemma {:induction false} PlainIsCopied(s: string, p: nat)
    requires p <= |s| && forall i :: 0 <= i < p ==> !Special(s[i])
    ensures QuotedText(s) == s[..p] + QuotedText(s[p..])
    decreases p
  {
    if p > 0 {
      PlainIsCopied(s[1..], p - 1);
      assert s[1..][p - 1..] == s[p..] && s[..p] == [s[0]] + s[1..][..p - 1];
    } else {
      assert s[p..] == s;
    }
  }

  /** Copies up to the next special character, and goes on behind it. */
  method QuoteString(s: string) returns (out: string)
    ensures out == Quoted(s)
  {
    if s == "" {
      return [QUOTE, QUOTE];
    }
    out := [QUOTE];
    var rest := s;
    while true
      invariant out + QuotedText(rest) == [QUOTE] + QuotedText(s)
      decreases |rest|
    {
      var p := IndexSpecial(rest);
      UpToSpecial(out, rest, p);
      out := out + rest[..p];
      if p == |rest| {
        break;
      }
      SpecialQuoted(out, rest, p);
      out := out + [BACKSLASH];
      out := out + [rest[p]];
      rest := rest[p + 1..];
      if |rest| == 0 {
        break;
      }
    }
    out := out + [QUOTE];
  }

  lemma UpToSpecial(out: string, rest: string, p: nat)
    requires p <= |rest| && forall i :: 0 <= i < p ==> !Special(rest[i])
    ensures out + rest[..p] + QuotedText(rest[p..]) == out + QuotedText(rest)
    ensures p == |rest| ==> out + rest[..p] == out + QuotedText(rest)
  {
    PlainIsCopied(rest, p);
    Associate(out, rest[..p], QuotedText(rest[p..]));
  }

  lemma SpecialQuoted(out: string, rest: string, p: nat)
    requires p < |rest| && Special(rest[p])
    ensures out + [BACKSLASH] + [rest[p]] + QuotedText(rest[p + 1..]) == out + QuotedText(rest[p..])
    ensures p + 1 == |rest| ==> out + [BACKSLASH] + [rest[p]] == out + QuotedText(rest[p..])
  {
    assert rest[p..][1..] == rest[p + 1..];
    assert out + [BACKSLASH] + [rest[p]] == out + QuoteChar(rest[p]);
    Associate(out, QuoteChar(rest[p]), QuotedText(rest[p + 1..]));
  }

  /** Reads a literal from after its first quote to its last: the text, and what follows. */
  function ReadLiteral(s: string): Option<(string, string)> {
    if s == "" then None
    else if s[0] == QUOTE then Some(("", s[1..]))
    else if s[0] != BACKSLASH then
      match ReadLiteral(s[1..])
      case None => None
      case Some((text, rest)) => Some(([s[0]] + text, rest))
    else if |s| < 2 || !Special(s[1]) then None
    else
      match ReadLiteral(s[2..])
      case None => None
      case Some((text, rest)) => Some(([s[1]] + text, rest))
  }

  /** A literal is read as the string it was made of, and ends where it was ended: whatever the string contains,
      none of it is read as what follows. */
  lemma {:induction false} LiteralIsReadBack(s: string, rest: string)
    ensures ReadLiteral(QuotedText(s) + [QUOTE] + rest) == Some((s, rest))
  {
    var t := QuotedText(s) + [QUOTE] + rest;
    if s == "" {
      assert t[1..] == rest;
    } else {
      LiteralIsReadBack(s[1..], rest);
      var next := QuotedText(s[1..]) + [QUOTE] + rest;
      assert t == QuoteChar(s[0]) + next;
      assert t[|QuoteChar(s[0])|..] == next;
      assert [s[0]] + s[1..] == s;
    }
  }

  /** A literal of one character: a quote or a backslash has a backslash in front. */
  lemma OneChar(c: char)
    ensures Quoted([c]) == if c == '\'' || c == '\\' then ['\'', '\\', c, '\''] else ['\'', c, '\'']
  {
    assert [c][1..] == "" && QuotedText("") == "";
    assert QuotedText([c]) == QuoteChar(c) + "";
    assert QuotedText([c]) == QuoteChar(c);
  }

  lemma QuotingIsUndone(s: string, rest: string)
    ensures (Quoted(s) + rest)[0] == QUOTE && ReadLiteral((Quoted(s) + rest)[1..]) == Some((s, rest))
  {
    LiteralIsReadBack(s, rest);
    assert (Quoted(s) + rest)[1..] == QuotedText(s) + [QUOTE] + rest;
  }
}
