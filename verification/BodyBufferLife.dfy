/** The life of a request body buffer: its pooled state is counted by the bodies that are open, and goes back
    to the pool exactly once (connectors/bodybuffer.go:46-102, connectors/bodybuffer.go:223-300,
    connectors/bodybuffer.go:368-496). */
module BodyBufferLife {
  import opened Prelude

  datatype Encoding = NoEncoding | Gzip

  /** A body that was opened: what was read from it, and what is left; nothing is left to a closed one. */
  datatype Reader = Reader(got: seq<byte>, rest: Option<seq<byte>>)

  /** `plain` is none once a request was made. The storage of the two buffers has an identity, since it is
      pooled: `plainId` and `bodyId` are what the state holds, `puts` what it gave to the pool of byte buffers,
      and `nextId` is fresh. `returned` counts how often the state itself was put in its pool. `lost` says that
      the body made for a request was never given out. `written` is all that was written, without what was
      truncated; `compressed` is what of it the compressor was given. */
  datatype State = State(
    enc: Encoding, closed: bool, plain: Option<seq<byte>>, flushed: nat,
    body: seq<byte>, bodyCap: nat, openBodies: int, readers: seq<Reader>,
    requested: bool, lost: bool,
    plainId: Option<nat>, bodyId: Option<nat>, nextId: nat, puts: multiset<nat>, returned: nat,
    written: seq<byte>, compressed: seq<byte>)

  /** A state taken from the pool. The compressed bytes get a buffer of their own. */
  function Initial(enc: Encoding, capacity: nat): State {
    State(enc, false, Some([]), 0, [], if enc.Gzip? then capacity else 0, 0, [], false, false,
          Some(0), if enc.Gzip? then Some(1) else None, 2, multiset{}, 0, [], [])
  }

  /** One write of the compressor, and the capacity that a new buffer would have beyond what is needed. */
  datatype Chunk = Chunk(bytes: seq<byte>, spare: nat)

  datatype Step =
    | Write(bytes: seq<byte>, moved: bool)         // moved: the plain buffer had to be reallocated
    | Truncate(length: int)
    | Flush(chunks: seq<Chunk>)
    | NewRequest(validURL: bool, chunks: seq<Chunk>)
    | GetBody
    | Read(reader: nat, count: nat)
    | CloseBody(reader: nat)
    | Close

  const MAX_BODIES := 10

  /** A write to the body, which moves to a larger buffer when its own is full. */
  function Emit(s: State, c: Chunk): State {
    var body := s.body + c.bytes;
    if |body| > s.bodyCap && s.bodyId.Some? then
      s.(body := body, bodyCap := |body| + c.spare, bodyId := Some(s.nextId), nextId := s.nextId + 1,
         puts := s.puts + multiset{s.bodyId.value})
    else s.(body := body)
  }

  function EmitAll(s: State, chunks: seq<Chunk>): State {
    if chunks == [] then s else Emit(EmitAll(s, chunks[..|chunks| - 1]), chunks[|chunks| - 1])
  }

  predicate TruncatePanics(s: State, n: int) { s.plain.None? || n < 0 || n > |s.plain.value| - s.flushed }

  /** Puts the state in the pool, and the byte buffers it holds. */
  function Put(s: State): State {
    s.(plain := None, plainId := None, bodyId := None, flushed := 0, returned := s.returned + 1,
       puts := s.puts
               + (if s.plainId.Some? then multiset{s.plainId.value} else multiset{})
               + (if s.bodyId.Some? then multiset{s.bodyId.value} else multiset{}))
  }

  function OpenReader(s: State): State { s.(readers := s.readers + [Reader([], Some(s.body))]) }

  /** The plain bytes become the body, or go through the compressor and their buffer to the pool. */
  function MakeBody(s: State, chunks: seq<Chunk>): State
    requires s.plain.Some? && s.plainId.Some?
  {
    match s.enc
    case NoEncoding => s.(body := s.plain.value, bodyId := s.plainId, plain := None, plainId := None)
    case Gzip =>
      EmitAll(s, chunks).(compressed := s.compressed + s.plain.value, plain := None, plainId := None,
                          puts := EmitAll(s, chunks).puts + multiset{s.plainId.value})
  }

  function IsOpen(s: State, r: nat): bool { r < |s.readers| && s.readers[r].rest.Some? }

  /** What a call does. A call that fails or is refused changes nothing. */
  function Apply(s: State, step: Step): State {
    match step
    case Write(bytes, moved) =>
      if s.closed || s.plain.None? then s
      else
        s.(plain := Some(s.plain.value + bytes), written := s.written + bytes,
           plainId := if moved then Some(s.nextId) else s.plainId, nextId := s.nextId + if moved then 1 else 0)
    case Truncate(n) =>
      if s.closed || TruncatePanics(s, n) then s
      else
        var length := match s.enc case NoEncoding => s.flushed + n case Gzip => n;
        s.(plain := Some(s.plain.value[..length]), written := s.compressed + s.plain.value[..length])
    case Flush(chunks) =>
      if s.closed || s.plain.None? || s.plain.value == [] then s
      else (
        match s.enc
        case NoEncoding => s.(flushed := |s.plain.value|)
        case Gzip =>
          EmitAll(s, chunks).(flushed := s.flushed + |s.plain.value|, plain := Some([]),
                              compressed := s.compressed + s.plain.value))
    case NewRequest(validURL, chunks) =>
      if s.closed || s.plain.None? || s.plainId.None? then s
      else
        var t := MakeBody(s, chunks).(flushed := s.flushed + |s.plain.value|, openBodies := 1);
        if validURL then OpenReader(t.(requested := true)) else t.(lost := true)
    case GetBody =>
      if s.closed || !s.requested || s.openBodies == MAX_BODIES then s
      else OpenReader(s.(openBodies := s.openBodies + 1))
    case Read(r, n) =>
      if !IsOpen(s, r) then s
      else
        var k := if n < |s.readers[r].rest.value| then n else |s.readers[r].rest.value|;
        s.(readers := s.readers[r := Reader(s.readers[r].got + s.readers[r].rest.value[..k],
                                            Some(s.readers[r].rest.value[k..]))])
    case CloseBody(r) =>
      if !IsOpen(s, r) then s
      else
        var t := s.(readers := s.readers[r := s.readers[r].(rest := None)], openBodies := s.openBodies - 1);
        if t.closed && t.openBodies == 0 then Put(t) else t
    case Close =>
      if s.closed then s
      else if s.openBodies == 0 then Put(s).(closed := true) else s.(closed := true)
  }

  function Run(s: State, steps: seq<Step>): State {
    if steps == [] then s else Apply(Run(s, steps[..|steps| - 1]), steps[|steps| - 1])
  }

  // ---- What every call keeps -----------------------------------------------------------------------------------

  function OpenReaders(s: State): set<nat> { set r | 0 <= r < |s.readers| && s.readers[r].rest.Some? }

  /** The count is that of the open bodies, and of the one that was lost. */
  ghost predicate Counted(s: State) {
    && s.openBodies == |OpenReaders(s)| + (if s.lost then 1 else 0)
    && s.openBodies <= MAX_BODIES
    && (s.readers != [] ==> s.requested)
    && !(s.requested && s.lost)
    && (s.requested || s.lost ==> s.plain.None?)
    && (s.returned == if s.closed && s.openBodies == 0 then 1 else 0)
  }

  /** Storage is held, or was put in the pool, once. */
  ghost predicate Owned(s: State) { OwnedOnce(s) && Held(s) }

  ghost predicate OwnedOnce(s: State) {
    && (forall i :: i in s.puts ==> i < s.nextId && s.puts[i] == 1)
    && (s.plainId.Some? ==> s.plainId.value < s.nextId && s.plainId.value !in s.puts)
    && (s.bodyId.Some? ==> s.bodyId.value < s.nextId && s.bodyId.value !in s.puts)
    && (s.plainId.Some? && s.bodyId.Some? ==> s.plainId.value != s.bodyId.value)
  }

  predicate Held(s: State) {
    && (s.plain.Some? <==> s.plainId.Some?)
    && (s.returned > 0 ==> s.plainId.None? && s.bodyId.None?)
    && (s.returned == 0 && (s.requested || s.enc.Gzip?) ==> s.bodyId.Some?)
    && (s.returned == 0 && !s.requested && !s.lost ==> s.plain.Some?)
  }

  /** The bytes: nothing is lost between what is written, the compressor, the body and its readers. */
  ghost predicate Whole(s: State) {
    && (s.enc.NoEncoding? ==> s.compressed == [])
    && (s.plain.Some? ==> s.written == s.compressed + s.plain.value)
    && (s.enc.NoEncoding? && s.plain.Some? ==> s.flushed <= |s.plain.value|)
    && (s.enc.Gzip? && s.plain.Some? ==> s.flushed == |s.compressed|)
    && (s.requested && s.enc.NoEncoding? ==> s.body == s.written)
    && (s.requested && s.enc.Gzip? ==> s.compressed == s.written)
    && (forall r :: 0 <= r < |s.readers| ==> Yields(s.readers[r], s.body))
  }

  /** A reader yields the body, from its beginning and without a gap. */
  predicate Yields(reader: Reader, body: seq<byte>) {
    && reader.got <= body
    && (reader.rest.Some? ==> reader.got + reader.rest.value == body)
  }

  ghost predicate Inv(s: State) { Counted(s) && Owned(s) && Whole(s) }

  lemma {:induction false} EmitAllKeeps(s: State, chunks: seq<Chunk>)
    requires Owned(s)
    ensures
      var t := EmitAll(s, chunks);
      && Owned(t) && t == s.(body := t.body, bodyCap := t.bodyCap, bodyId := t.bodyId, nextId := t.nextId, puts := t.puts)
      && s.body <= t.body
  {
    if chunks != [] {
      EmitAllKeeps(s, chunks[..|chunks| - 1]);
      EmitKeeps(EmitAll(s, chunks[..|chunks| - 1]), chunks[|chunks| - 1]);
    }
  }

  lemma EmitKeeps(s: State, c: Chunk)
    requires Owned(s)
    ensures Owned(Emit(s, c))
  {
  }

  lemma OneMoreOpen(s: State)
    ensures OpenReaders(OpenReader(s)) == OpenReaders(s) + {|s.readers|}
    ensures |OpenReaders(OpenReader(s))| == |OpenReaders(s)| + 1
  {
    var t := OpenReader(s);
    assert forall r :: 0 <= r < |s.readers| ==> t.readers[r] == s.readers[r];
    assert OpenReaders(t) == OpenReaders(s) + {|s.readers|};
    assert |s.readers| !in OpenReaders(s);
  }

  lemma OneLessOpen(s: State, r: nat, reader: Reader)
    requires IsOpen(s, r)
    ensures
      var t := s.(readers := s.readers[r := reader]);
      OpenReaders(t) == if reader.rest.Some? then OpenReaders(s) else OpenReaders(s) - {r}
    ensures |OpenReaders(s) - {r}| == |OpenReaders(s)| - 1
  {
  }

  lemma NewRequestCounted(s: State, valid: bool, chunks: seq<Chunk>)
    requires Inv(s) && !s.closed && s.plain.Some?
    ensures Counted(Apply(s, NewRequest(valid, chunks)))
  {
    EmitAllKeeps(s, chunks);
    var t := MakeBody(s, chunks).(flushed := s.flushed + |s.plain.value|, openBodies := 1);
    assert t.readers == [] && OpenReaders(t) == {} && t.returned == 0;
    OneMoreOpen(t.(requested := true));
  }

  lemma GetBodyCounted(s: State)
    requires Counted(s)
    ensures Counted(Apply(s, GetBody))
  {
    OneMoreOpen(s.(openBodies := s.openBodies + 1));
  }

  lemma CloseBodyCounted(s: State, r: nat)
    requires Counted(s) && Owned(s)
    ensures Counted(Apply(s, CloseBody(r)))
  {
    if IsOpen(s, r) {
      OneLessOpen(s, r, s.readers[r].(rest := None));
      assert r in OpenReaders(s);
    }
  }

  lemma ReadCounted(s: State, r: nat, n: nat)
    requires Counted(s)
    ensures Counted(Apply(s, Read(r, n)))
  {
    if IsOpen(s, r) { OneLessOpen(s, r, Apply(s, Read(r, n)).readers[r]); }
  }

  lemma CountedKept(s: State, step: Step)
    requires Inv(s)
    ensures Counted(Apply(s, step))
  {
    match step
    case Flush(chunks) => EmitAllKeeps(s, chunks);
    case NewRequest(valid, chunks) => if !s.closed && s.plain.Some? { NewRequestCounted(s, valid, chunks); }
    case GetBody => GetBodyCounted(s);
    case Read(r, n) => ReadCounted(s, r, n);
    case CloseBody(r) => CloseBodyCounted(s, r);
    case _ =>
  }

  lemma PutOwned(s: State)
    requires Owned(s) && s.returned == 0
    ensures Owned(Put(s))
  {
  }

  lemma NewRequestOwned(s: State, valid: bool, chunks: seq<Chunk>)
    requires Owned(s) && !s.closed && s.plain.Some? && s.returned == 0
    ensures Owned(Apply(s, NewRequest(valid, chunks)))
  {
    MakeBodyOwnedOnce(s, chunks);
    EmitAllKeeps(s, chunks);
  }

  lemma MakeBodyOwnedOnce(s: State, chunks: seq<Chunk>)
    requires Owned(s) && s.plain.Some? && s.returned == 0
    ensures OwnedOnce(MakeBody(s, chunks)) && MakeBody(s, chunks).bodyId.Some?
  {
    EmitAllKeeps(s, chunks);
    if s.enc.Gzip? {
      var t := EmitAll(s, chunks);
      assert Owned(t) && s.plainId.value !in t.puts;
    }
  }

  lemma FlushOwned(s: State, chunks: seq<Chunk>)
    requires Owned(s)
    ensures Owned(Apply(s, Flush(chunks)))
  {
    EmitAllKeeps(s, chunks);
  }

  lemma CloseBodyOwned(s: State, r: nat)
    requires Inv(s) && IsOpen(s, r)
    ensures Owned(Apply(s, CloseBody(r)))
  {
    assert r in OpenReaders(s) && s.returned == 0;
    PutOwned(s.(readers := s.readers[r := s.readers[r].(rest := None)], openBodies := s.openBodies - 1));
  }

  lemma OwnedKept(s: State, step: Step)
    requires Inv(s)
    ensures Owned(Apply(s, step))
  {
    match step
    case Flush(chunks) => FlushOwned(s, chunks);
    case NewRequest(valid, chunks) =>
      if !s.closed && s.plain.Some? { NewRequestOwned(s, valid, chunks); }
    case Close => if s.returned == 0 { PutOwned(s); }
    case CloseBody(r) => if IsOpen(s, r) { CloseBodyOwned(s, r); }
    case _ =>
  }

  lemma NewRequestWhole(s: State, valid: bool, chunks: seq<Chunk>)
    requires Inv(s) && !s.closed && s.plain.Some?
    ensures Whole(Apply(s, NewRequest(valid, chunks)))
  {
    EmitAllKeeps(s, chunks);
    assert s.compressed + s.plain.value == s.written;
    assert s.enc.NoEncoding? ==> [] + s.plain.value == s.plain.value;
    assert s.readers == [];
  }

  lemma FlushWhole(s: State, chunks: seq<Chunk>)
    requires Inv(s)
    ensures Whole(Apply(s, Flush(chunks)))
  {
    EmitAllKeeps(s, chunks);
    if s.plain.Some? {
      assert s.readers == [];
      assert (s.compressed + s.plain.value) + [] == s.written;
    }
  }

  lemma ReadWhole(s: State, r: nat, n: nat)
    requires Whole(s) && IsOpen(s, r)
    ensures Whole(Apply(s, Read(r, n)))
  {
    var was, t := s.readers[r], Apply(s, Read(r, n)).readers[r];
    assert t.got + t.rest.value == was.got + was.rest.value;
    assert Yields(t, s.body);
  }

  lemma WriteWhole(s: State, bytes: seq<byte>, moved: bool)
    requires Inv(s)
    ensures Whole(Apply(s, Write(bytes, moved)))
  {
    if s.plain.Some? { assert (s.compressed + s.plain.value) + bytes == s.compressed + (s.plain.value + bytes); }
  }

  lemma WholeKept(s: State, step: Step)
    requires Inv(s)
    ensures Whole(Apply(s, step))
  {
    match step
    case Write(bytes, moved) => WriteWhole(s, bytes, moved);
    case Flush(chunks) => FlushWhole(s, chunks);
    case NewRequest(valid, chunks) => if !s.closed && s.plain.Some? { NewRequestWhole(s, valid, chunks); }
    case Read(r, n) => if IsOpen(s, r) { ReadWhole(s, r, n); }
    case _ =>
  }

  lemma InvKept(s: State, step: Step)
    requires Inv(s)
    ensures Inv(Apply(s, step))
  {
    CountedKept(s, step);
    OwnedKept(s, step);
    WholeKept(s, step);
  }

  lemma {:induction false} ReachableInv(enc: Encoding, capacity: nat, steps: seq<Step>)
    ensures Inv(Run(Initial(enc, capacity), steps))
  {
    var s := Initial(enc, capacity);
    if steps == [] {
      assert OpenReaders(s) == {};
    } else {
      var init := steps[..|steps| - 1];
      ReachableInv(enc, capacity, init);
      InvKept(Run(s, init), steps[|steps| - 1]);
    }
  }

  // ---- What holds over every life ------------------------------------------------------------------------------

  /** The state goes back to its pool at most once; and it is there exactly when the buffer is closed, no body
      is open, and no request failed for its URL. */
  lemma StateIsReturnedOnce(enc: Encoding, capacity: nat, steps: seq<Step>)
    ensures
      var s := Run(Initial(enc, capacity), steps);
      && s.returned <= 1
      && (s.returned == 1 <==> s.closed && OpenReaders(s) == {} && !s.lost)
  {
    ReachableInv(enc, capacity, steps);
  }

  /** No storage is put in the pool twice, nor while a body that reads from it is open. When the state is in
      its pool, nothing is held any more. */
  lemma StorageIsPutOnce(enc: Encoding, capacity: nat, steps: seq<Step>)
    ensures
      var s := Run(Initial(enc, capacity), steps);
      && (forall i :: i in s.puts ==> s.puts[i] == 1)
      && (OpenReaders(s) != {} ==> s.bodyId.Some? && s.bodyId.value !in s.puts)
      && (s.returned == 1 ==> s.plainId.None? && s.bodyId.None?)
  {
    ReachableInv(enc, capacity, steps);
    var s := Run(Initial(enc, capacity), steps);
    if OpenReaders(s) != {} {
      var r :| r in OpenReaders(s);
      assert |OpenReaders(s)| > 0;
    }
  }

  /** At most ten bodies are open. */
  lemma AtMostTenBodies(enc: Encoding, capacity: nat, steps: seq<Step>)
    ensures |OpenReaders(Run(Initial(enc, capacity), steps))| <= MAX_BODIES
  {
    ReachableInv(enc, capacity, steps);
  }

  /** A body read to its end gave all that was written, in order; or, compressed, all that the compressor
      gave for it. */
  lemma EachBodyIsWhole(enc: Encoding, capacity: nat, steps: seq<Step>, r: nat)
    requires
      var s := Run(Initial(enc, capacity), steps);
      r < |s.readers| && s.readers[r].rest == Some([])
    ensures
      var s := Run(Initial(enc, capacity), steps);
      && s.readers[r].got == s.body
      && (enc.NoEncoding? ==> s.body == s.written)
      && (enc.Gzip? ==> s.compressed == s.written)
  {
    ReachableInv(enc, capacity, steps);
    EncodingStays(enc, capacity, steps);
    var s := Run(Initial(enc, capacity), steps);
    assert Yields(s.readers[r], s.body);
    assert s.readers[r].got + [] == s.readers[r].got;
  }

  lemma {:induction false} EncodingStays(enc: Encoding, capacity: nat, steps: seq<Step>)
    ensures Run(Initial(enc, capacity), steps).enc == enc
  {
    if steps != [] {
      EncodingStays(enc, capacity, steps[..|steps| - 1]);
      EncodingKept(Run(Initial(enc, capacity), steps[..|steps| - 1]), steps[|steps| - 1]);
    }
  }

  lemma EncodingKept(s: State, step: Step)
    ensures Apply(s, step).enc == s.enc
  {
    if step.Flush? || step.NewRequest? { EmitAllEncoding(s, step.chunks); }
  }

  lemma {:induction false} EmitAllEncoding(s: State, chunks: seq<Chunk>)
    ensures EmitAll(s, chunks).enc == s.enc
  {
    if chunks != [] { EmitAllEncoding(s, chunks[..|chunks| - 1]); }
  }

  /** A request whose URL is not valid keeps the state out of the pool for ever, whatever is closed. */
  lemma {:induction false} LostStateIsNeverReturned(s: State, later: seq<Step>)
    requires Inv(s) && s.lost
    ensures Inv(Run(s, later)) && Run(s, later).lost && Run(s, later).returned == 0
  {
    if later != [] {
      var init, step := later[..|later| - 1], later[|later| - 1];
      LostStateIsNeverReturned(s, init);
      InvKept(Run(s, init), step);
    }
  }

  /** Such a request, and the closing of the buffer. */
  lemma ClosedWithoutItsState()
    ensures
      var s := Run(Initial(NoEncoding, 0), [NewRequest(false, []), Close]);
      s.lost && s.closed && OpenReaders(s) == {} && s.returned == 0
  {
    var steps := [NewRequest(false, []), Close];
    assert steps[..1][..0] == [] && steps[..1][0] == steps[0];
    assert Run(Initial(NoEncoding, 0), steps[..1]) == Apply(Initial(NoEncoding, 0), NewRequest(false, []));
  }

  // ---- Truncation ------------------------------------------------------------------------------------------------

  /** The bytes written since the last flush. */
  function Unflushed(s: State): seq<byte>
    requires s.plain.Some? && (s.enc.NoEncoding? ==> s.flushed <= |s.plain.value|)
  {
    match s.enc
    case NoEncoding => s.plain.value[s.flushed..]
    case Gzip => s.plain.value
  }

  /** What is promised: to discard the unflushed bytes after the first n, and to panic if n is not a number
      of unflushed bytes. */
  ghost predicate TruncatesAsPromised(s: State, n: int)
    requires s.plain.Some? && Inv(s)
  {
    && (TruncatePanics(s, n) <==> n < 0 || n > |Unflushed(s)|)
    && (!TruncatePanics(s, n) ==>
        var t := Apply(s, Truncate(n));
        && t.plain.Some? && t.flushed == s.flushed
        && Unflushed(t) == Unflushed(s)[..n]
        && t.written == s.written[..|s.written| - (|Unflushed(s)| - n)])
  }

  /** The range is tested against the flushed bytes also when these are not in the plain buffer any more. So
      the promise is kept exactly if nothing was compressed yet, or n is out of range in both ways or in none. */
  lemma TruncateKeepsItsPromise(s: State, n: int)
    requires Inv(s) && !s.closed && s.plain.Some?
    ensures TruncatesAsPromised(s, n) <==>
      s.enc.NoEncoding? || s.flushed == 0 || n < 0 || n > |s.plain.value| || n <= |s.plain.value| - s.flushed
  {
    if !TruncatePanics(s, n) {
      TruncateCuts(s, n);
    }
  }

  lemma TruncateCuts(s: State, n: int)
    requires Inv(s) && !s.closed && s.plain.Some? && !TruncatePanics(s, n)
    ensures
      var t := Apply(s, Truncate(n));
      && t.plain.Some? && t.flushed == s.flushed
      && n <= |Unflushed(s)| <= |s.written|
      && Unflushed(t) == Unflushed(s)[..n]
      && t.written == s.written[..|s.written| - (|Unflushed(s)| - n)]
  {
  }

  /** After ten bytes were flushed to the compressor, five more cannot be truncated to two. */
  lemma TruncatePanicsInRange()
    ensures
      var ten, five := seq(10, _ => 0 as byte), seq(5, _ => 0 as byte);
      var s := Run(Initial(Gzip, 0), [Write(ten, false), Flush([]), Write(five, false)]);
      s.enc.Gzip? && s.plain.Some? && |Unflushed(s)| == 5 && TruncatePanics(s, 2)
  {
    var ten, five := seq(10, _ => 0 as byte), seq(5, _ => 0 as byte);
    var s0 := Initial(Gzip, 0);
    var s1 := Apply(s0, Write(ten, false));
    var s2 := Apply(s1, Flush([]));
    var s3 := Apply(s2, Write(five, false));
    var steps := [Write(ten, false), Flush([]), Write(five, false)];
    assert steps[..2][..1][..0] == [] && steps[..2][..1][0] == steps[0] && steps[..2][1] == steps[1];
    assert Run(s0, steps[..2][..1]) == s1;
    assert Run(s0, steps[..2]) == s2;
    assert Run(s0, steps) == s3;
  }
}
