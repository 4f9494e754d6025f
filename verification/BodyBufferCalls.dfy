/** What each call on a body buffer does, in every state that it can be in (connectors/bodybuffer.go:90-102,
    connectors/bodybuffer.go:172-195, connectors/bodybuffer.go:223-300, connectors/bodybuffer.go:368-496). */
module BodyBufferCalls {
  import opened Prelude
  import opened BodyBufferLife

  /** All that some writes of the compressor give. */
  function Given(chunks: seq<Chunk>): seq<byte> {
    if chunks == [] then [] else Given(chunks[..|chunks| - 1]) + chunks[|chunks| - 1].bytes
  }

  lemma Associate(a: seq<byte>, b: seq<byte>, c: seq<byte>)
    ensures a + (b + c) == a + b + c
  {
  }

  lemma {:induction false} EmitAllGives(s: State, chunks: seq<Chunk>)
    ensures
      var t := EmitAll(s, chunks);
      && t.body == s.body + Given(chunks)
      && t == s.(body := t.body, bodyCap := t.bodyCap, bodyId := t.bodyId, nextId := t.nextId, puts := t.puts)
  {
    if chunks == [] {
      assert s.body + [] == s.body;
    } else {
      EmitAllGives(s, chunks[..|chunks| - 1]);
      Associate(s.body, Given(chunks[..|chunks| - 1]), chunks[|chunks| - 1].bytes);
    }
  }

  /** The buffer can be written to: it is open, and no request was made of it. */
  predicate Writable(s: State) { !s.closed && s.plain.Some? }

  /** A write appends its bytes. */
  lemma WriteAppends(s: State, bytes: seq<byte>, moved: bool)
    requires Inv(s)
    ensures
      var t := Apply(s, Write(bytes, moved));
      if Writable(s) then
        && t.written == s.written + bytes && t.plain == Some(s.plain.value + bytes)
        && t == s.(written := t.written, plain := t.plain, plainId := t.plainId, nextId := t.nextId)
      else t == s
  {
  }

  /** A flush gives all that was written to the compressor or, without one, marks it. */
  lemma FlushGives(s: State, chunks: seq<Chunk>)
    requires Inv(s)
    ensures
      var t := Apply(s, Flush(chunks));
      if Writable(s) && s.plain.value != [] then
        && t.written == s.written && t.closed == s.closed && t.readers == s.readers && t.flushed == |s.written|
        && (s.enc.NoEncoding? ==> t == s.(flushed := t.flushed))
        && (s.enc.Gzip? ==> t.compressed == s.written && t.plain == Some([]) && t.body == s.body + Given(chunks))
      else t == s
  {
    EmitAllGives(s, chunks);
  }

  /** A request takes all that was written: as it is, or through the compressor. With a valid URL its body is open. */
  lemma RequestTakesAll(s: State, validURL: bool, chunks: seq<Chunk>)
    requires Inv(s)
    ensures
      var t := Apply(s, NewRequest(validURL, chunks));
      if Writable(s) then
        && t.plain == None && t.written == s.written && !t.closed
        && t.requested == validURL && t.lost == !validURL
        && (s.enc.NoEncoding? ==> t.body == s.written)
        && (s.enc.Gzip? ==> t.compressed == s.written && t.body == s.body + Given(chunks))
        && t.readers == if validURL then [Reader([], Some(t.body))] else []
      else t == s
  {
    EmitAllGives(s, chunks);
    if Writable(s) { assert s.readers == []; }
  }

  /** Another body is opened, from its beginning, while fewer than ten are open. */
  lemma GetBodyOpens(s: State)
    requires Inv(s)
    ensures
      var t := Apply(s, GetBody);
      if !s.closed && s.requested && |OpenReaders(s)| < 10 then
        t == s.(readers := s.readers + [Reader([], Some(s.body))], openBodies := s.openBodies + 1)
      else t == s
  {
  }

  /** A read gives the next bytes, as many as are asked for if there are so many. */
  lemma ReadGives(s: State, r: nat, n: nat)
    ensures
      var t := Apply(s, Read(r, n));
      if IsOpen(s, r) then
        var was, now := s.readers[r], t.readers[r];
        && t == s.(readers := s.readers[r := now]) && now.rest.Some?
        && was.rest.value == now.got[|was.got|..] + now.rest.value && was.got <= now.got
        && (|now.got| - |was.got| == n || (|now.got| - |was.got| < n && now.rest.value == []))
      else t == s
  {
    if IsOpen(s, r) {
      var was := s.readers[r];
      var k := if n < |was.rest.value| then n else |was.rest.value|;
      assert (was.got + was.rest.value[..k])[|was.got|..] == was.rest.value[..k];
    }
  }

  /** A body is closed once. The state is given back with the last one, if the buffer is closed. */
  lemma CloseBodyCloses(s: State, r: nat)
    requires Inv(s)
    ensures
      var t := Apply(s, CloseBody(r));
      if IsOpen(s, r) then
        && |t.readers| == |s.readers| && t.readers[r] == s.readers[r].(rest := None) && t.closed == s.closed
        && (forall x :: 0 <= x < |s.readers| && x != r ==> t.readers[x] == s.readers[x])
        && (t.returned > s.returned <==> s.closed && !s.lost && OpenReaders(s) == {r})
      else t == s
  {
    if IsOpen(s, r) {
      InvKept(s, CloseBody(r));
      var t := Apply(s, CloseBody(r));
      assert r in OpenReaders(s);
      OneLessOpen(s, r, s.readers[r].(rest := None));
      assert |OpenReaders(s)| == 1 <==> OpenReaders(s) == {r} by {
        if |OpenReaders(s)| == 1 { assert OpenReaders(s) - {r} == {}; }
      }
    }
  }

  /** The buffer is closed once. The state is given back if no body is open. */
  lemma CloseCloses(s: State)
    requires Inv(s)
    ensures
      var t := Apply(s, Close);
      if s.closed then t == s
      else
        && t.closed && t.readers == s.readers && t.written == s.written && t.body == s.body
        && (t.returned > s.returned <==> !s.lost && OpenReaders(s) == {})
  {
  }
}
