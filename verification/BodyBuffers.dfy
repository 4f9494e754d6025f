/** The body buffer, its writer and its readers as objects: each method makes one step of the life
    that BodyBufferLife describes (connectors/bodybuffer.go:92-102, connectors/bodybuffer.go:223-300,
    connectors/bodybuffer.go:445-496). */
module BodyBuffers {
  import opened Prelude
  import opened BodyBufferLife

  /** The writer of the compressed body, over storage from the pool of byte buffers. */
  class BodyWriter {
    var buf: array<byte>
    var len: nat

    constructor (b: array<byte>)
      ensures buf == b && len == 0
    {
      buf, len := b, 0;
    }

    ghost predicate Valid()
      reads this
    {
      len <= buf.Length
    }

    ghost function Contents(): seq<byte>
      requires Valid()
      reads this, buf
    {
      buf[..len]
    }

    /** Appends, moving to a larger buffer if there is no room; the old one is then free, as it was. */
    method Write(p: seq<byte>, spare: nat) returns (freed: array?<byte>)
      requires Valid()
      modifies this, buf
      ensures Valid() && Contents() == old(Contents()) + p
      ensures freed != null <==> |old(Contents())| + |p| > old(buf.Length)
      ensures if freed != null then freed == old(buf) && fresh(buf) && freed[..] == old(buf[..]) else buf == old(buf)
    {
      var n := len + |p|;
      freed := null;
      if n > buf.Length {
        var larger := new byte[n + spare](_ => 0);
        forall i | 0 <= i < len {
          larger[i] := buf[i];
        }
        freed := buf;
        buf := larger;
      }
      assert buf[..len] == old(Contents());
      forall i | 0 <= i < |p| {
        buf[len + i] := p[i];
      }
      assert buf[len..n] == p;
      assert buf[..n] == buf[..len] + buf[len..n];
      len := n;
    }
  }

  /** A body that is given out. It is none after it was closed. */
  class BodyReader {
    var buf: Option<seq<byte>>

    constructor (b: seq<byte>)
      ensures buf == Some(b)
    {
      buf := Some(b);
    }

    /** Reads into p; at the end of the body, and from a closed reader, nothing. */
    method Read(p: array<byte>) returns (n: nat)
      modifies this, p
      ensures old(buf).None? ==> n == 0 && buf.None? && p[..] == old(p[..])
      ensures old(buf).Some? ==>
        && n == (if p.Length < |old(buf).value| then p.Length else |old(buf).value|)
        && buf.Some? && p[..n] + buf.value == old(buf).value && p[n..] == old(p[n..])
    {
      n := 0;
      if buf.None? || |buf.value| == 0 {
        return;
      }
      n := if p.Length < |buf.value| then p.Length else |buf.value|;
      forall i | 0 <= i < n {
        p[i] := buf.value[i];
      }
      buf := Some(buf.value[n..]);
    }
  }

  /** The buffer. `readers` are the bodies that were given out. */
  class BodyBuffer {
    const enc: Encoding
    var closed: bool
    var plain: Option<seq<byte>>
    var flushed: nat
    var body: seq<byte>
    var openBodies: int
    var requested: bool
    var pooled: nat
    ghost var state: State

    ghost predicate Valid()
      reads this
    {
      && Inv(state) && state.enc == enc
      && closed == state.closed && plain == state.plain && flushed == state.flushed && body == state.body
      && openBodies == state.openBodies && requested == state.requested && pooled == state.returned
    }

    constructor (enc: Encoding, capacity: nat)
      ensures Valid() && state == Initial(enc, capacity)
    {
      this.enc := enc;
      closed, plain, flushed, body := false, Some([]), 0, [];
      openBodies, requested, pooled := 0, false, 0;
      state := Initial(enc, capacity);
      ReachableInv(enc, capacity, []);
      assert Run(Initial(enc, capacity), []) == Initial(enc, capacity);
    }

    method Write(bytes: seq<byte>, ghost moved: bool) returns (ok: bool)
      requires Valid() && !closed
      modifies this
      ensures Valid() && state == Apply(old(state), Step.Write(bytes, moved))
      ensures ok <==> old(plain).Some?
    {
      InvKept(state, Step.Write(bytes, moved));
      state := Apply(state, Step.Write(bytes, moved));
      if plain.None? {
        return false;
      }
      plain := Some(plain.value + bytes);
      return true;
    }

    method Flush(chunks: seq<Chunk>) returns (ok: bool)
      requires Valid() && !closed
      modifies this
      ensures Valid() && state == Apply(old(state), Step.Flush(chunks)) && ok == old(plain).Some?
    {
      ghost var before := state;
      InvKept(state, Step.Flush(chunks));
      state := Apply(state, Step.Flush(chunks));
      if plain.None? {
        return false;
      }
      if |plain.value| == 0 {
        return true;
      }
      if enc.NoEncoding? {
        flushed := |plain.value|;
      } else {
        Compress(chunks, before);
        EmitAllKeeps(before, chunks);
        flushed := flushed + |plain.value|;
        plain := Some([]);
      }
      return true;
    }

    method Truncate(n: int) returns (panics: bool)
      requires Valid() && !closed
      modifies this
      ensures Valid() && state == Apply(old(state), Step.Truncate(n)) && panics == TruncatePanics(old(state), n)
    {
      InvKept(state, Step.Truncate(n));
      state := Apply(state, Step.Truncate(n));
      if plain.None? || n < 0 || n > |plain.value| - flushed {
        return true;
      }
      if enc.NoEncoding? {
        plain := Some(plain.value[..flushed + n]);
      } else {
        plain := Some(plain.value[..n]);
      }
      return false;
    }

    /** What the compressor writes to the body. */
    method Compress(chunks: seq<Chunk>, ghost before: State)
      requires body == before.body
      modifies this`body
      ensures body == EmitAll(before, chunks).body
    {
      for i := 0 to |chunks|
        invariant body == EmitAll(before, chunks[..i]).body
      {
        assert chunks[..i + 1][..i] == chunks[..i];
        body := body + chunks[i].bytes;
      }
      assert chunks[..|chunks|] == chunks;
    }

    /** Makes the body of the request, and opens it. The compressor writes the chunks. */
    method NewRequest(validURL: bool, chunks: seq<Chunk>) returns (request: Option<BodyReader>)
      requires Valid() && !closed
      modifies this
      ensures Valid() && state == Apply(old(state), Step.NewRequest(validURL, chunks))
      ensures request.Some? <==> old(plain).Some? && validURL
      ensures request.Some? ==> fresh(request.value) && request.value.buf == Some(body)
    {
      ghost var before := state;
      InvKept(state, Step.NewRequest(validURL, chunks));
      state := Apply(state, Step.NewRequest(validURL, chunks));
      if plain.None? {
        return None;
      }
      flushed := flushed + |plain.value|;
      if enc.NoEncoding? {
        body := plain.value;
      } else {
        Compress(chunks, before);
        EmitAllKeeps(before, chunks);
      }
      plain := None;
      openBodies := 1;
      if !validURL {
        return None;
      }
      requested := true;
      var reader := new BodyReader(body);
      return Some(reader);
    }

    method GetBody() returns (reader: Option<BodyReader>)
      requires Valid() && requested
      modifies this
      ensures Valid() && state == Apply(old(state), Step.GetBody)
      ensures reader.Some? <==> !closed && old(openBodies) < MAX_BODIES
      ensures reader.Some? ==> fresh(reader.value) && reader.value.buf == Some(body)
    {
      InvKept(state, Step.GetBody);
      state := Apply(state, Step.GetBody);
      if closed {
        return None;
      }
      if openBodies == MAX_BODIES {
        return None;
      }
      openBodies := openBodies + 1;
      var r := new BodyReader(body);
      return Some(r);
    }

    /** Closing a body again does nothing. */
    method CloseBody(reader: BodyReader, ghost r: nat)
      requires Valid() && r < |state.readers| && reader.buf == state.readers[r].rest
      modifies this, reader
      ensures Valid() && state == Apply(old(state), Step.CloseBody(r))
      ensures reader.buf == state.readers[r].rest == None
    {
      InvKept(state, Step.CloseBody(r));
      state := Apply(state, Step.CloseBody(r));
      if reader.buf.Some? {
        reader.buf := None;
        openBodies := openBodies - 1;
        if closed && openBodies == 0 {
          PutState();
        }
      }
    }

    method PutState()
      modifies this
      ensures plain == None && flushed == 0 && pooled == old(pooled) + 1
      ensures closed == old(closed) && body == old(body) && openBodies == old(openBodies)
      ensures requested == old(requested) && state == old(state)
    {
      plain, flushed, pooled := None, 0, pooled + 1;
    }

    method Close()
      requires Valid()
      modifies this
      ensures Valid() && state == Apply(old(state), Step.Close) && closed
    {
      InvKept(state, Step.Close);
      state := Apply(state, Step.Close);
      if closed {
        return;
      }
      if openBodies == 0 {
        PutState();
      }
      closed := true;
    }
  }
}
