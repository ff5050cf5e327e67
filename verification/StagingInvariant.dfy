/** Every operation keeps the log safe and the session in step with it. */
module StagingInvariant {
  import opened Bytes
  import opened StagingTypes
  import opened PackageHeader
  import opened StagingModel
  import opened StagingLog
  import Crc16
  import Sha256

  // ----- the session as a function of the bytes received

  function Part(r: seq<byte>, from: nat, to: nat): (part: seq<byte>)
    requires from <= to
    ensures |part| <= to - from
  {
    r[Min(from, |r|)..Min(to, |r|)]
  }

  function Padded(part: seq<byte>, size: nat): (s: seq<byte>)
    requires |part| <= size
    ensures |s| == size
  {
    part + Zeros(size - |part|)
  }

  /** The payload bytes that have gone to flash: none before the eight vector bytes are complete. */
  function PayloadOf(r: seq<byte>): seq<byte> {
    if |r| >= PAYLOAD_OFFSET + VECTOR_SIZE then r[384..] else []
  }

  function RawSession(p: Params, r: seq<byte>): Session
    requires |r| <= UINT32_MAX
  {
    Session(p, Receiving, Ok, |r|, |PayloadOf(r)|, 0, 0, |PayloadOf(r)|,
            Padded(Part(r, 0, 320), 320), Padded(Part(r, 320, 384), 64), Padded(Part(r, 384, 392), 8),
            |Part(r, 384, 392)|, false, |r| >= 392,
            Crc16.Crc(Crc16.ZERO, PayloadOf(r)), ZeroMetadata(), ZeroInfo())
  }

  /** The whole receiving session, determined by its parameters and the bytes received. */
  function SessionOf(p: Params, r: seq<byte>): Session
    requires |r| <= UINT32_MAX
  {
    if |r| < PAYLOAD_OFFSET then RawSession(p, r)
    else RawSession(p, r).(payloadSize := PayloadSize(HeaderOf(r)), metadata := Decode(HeaderOf(r)),
        authenticated := true)
  }

  // ----- logs and facts

  predicate At(w: World, f: Facts) { Safe(w.history.log) && Observe(w.history.log) == f }

  function FactsOf(w: World): Facts { Observe(w.history.log) }

  lemma Noted(w: World, f: Facts, e: Event)
    requires At(w, f) && Allowed(f, e)
    ensures At(NoteIn(w, e), Learn(f, e))
  {
    hide Observe, Safe, Allowed, Learn;
    Extended(w.history.log, e);
  }

  lemma LogIsThere(w: World, f: Facts)
    requires At(w, f) && f.params.Some?
    ensures w.history.log != []
  {
  }

  lemma HeaderGivesUp(w: World, f: Facts, error: Error)
    requires At(w, f) && Working(f) && HeaderFault(f, error) && error != Ok
    requires error in {PackageFormat, Unsupported, ImageBounds, PackageSize, KeyMismatch}
    ensures GivenUp(w, f.params, error)
  {
    hide Observe, Safe, HeaderError;
    LogIsThere(w, f);
  }

  lemma VectorsGiveUp(w: World, f: Facts)
    requires At(w, f) && Working(f) && VectorFault(f)
    ensures GivenUp(w, f.params, VectorTable)
  {
    hide Observe, Safe, VectorError;
    LogIsThere(w, f);
  }

  /** No token and no boot table yet, and the session is open. */
  predicate Calm(f: Facts) {
    !f.closed && f.issued.None? && !f.live && !f.consumed && f.previous.None? && f.tables == []
  }

  predicate Working(f: Facts) { Calm(f) && !f.cancelled && !f.broken && f.params.Some? }

  /** An operation was given up: the log is safe and gives the reason, and a cancellation only if that is it. */
  predicate GivenUp(w: World, params: Option<Params>, error: Error) {
    && Safe(w.history.log)
    && var g := FactsOf(w);
    && Calm(g) && g.params == params && (g.cancelled <==> error == CancelledError)
    && Explains(w.history.log, error)
  }

  lemma PollAt(env: Env, w: World, f: Facts)
    requires At(w, f) && Working(f) && f.params == Some(w.session.params)
    ensures var (cancelled, w') := Poll(env, w);
      && At(w', f.(polled := f.polled || w.session.params.hasCancellation, cancelled := cancelled))
      && (cancelled ==> GivenUp(w', f.params, CancelledError))
      && (!cancelled ==> OperationMayFollow(FactsOf(w')))
  {
    hide Observe, Safe;
    if w.session.params.hasCancellation {
      Noted(w, f, Polled(env.cancels(w.history)));
    }
  }

  lemma TickAt(env: Env, w: World, f: Facts)
    requires At(w, f) && f.params.Some?
    ensures At(Tick(env, w), f)
  {
    hide Observe, Safe;
    Noted(w, f, Ticked(env.timeMs(w.history)));
  }

  // ----- erase

  predicate MayErase(f: Facts, offset: nat) {
    hide ImageStartChecked;
    ImageStartChecked(f) && f.written == [] && offset == f.erased <= SizeOf(f)
  }

  lemma EraseBlockAt(env: Env, w: World, f: Facts, offset: nat)
    requires At(w, f) && Working(f) && OperationMayFollow(f) && MayErase(f, offset) && offset < SizeOf(f)
    ensures var size := Min(SizeOf(f) - offset, ERASE_BLOCK_SIZE);
      var r := EraseBlock(env, w, offset, size);
      && (r.error == Ok ==> At(r.world, f.(polled := false, erased := offset + size)))
      && (r.error != Ok ==> GivenUp(r.world, f.params, r.error))
  {
    hide Observe, Safe, ImageStartChecked, SizeOf, Late;
    var size := Min(SizeOf(f) - offset, ERASE_BLOCK_SIZE);
    TickAt(env, w, f);
    var w1 := Tick(env, w);
    var e := Erased(offset, size, env.erases(w1.history, offset, size));
    Noted(w1, f, e);
    if e.result == 0 {
      TickAt(env, NoteIn(w1, e), Learn(f, e));
    }
  }

  lemma EraseNextAt(env: Env, w: World, f: Facts, offset: nat)
    requires At(w, f) && Working(f) && MayErase(f, offset) && offset < SizeOf(f)
    requires f.params == Some(w.session.params) && w.session.payloadSize == SizeOf(f)
    ensures var r := EraseNext(env, w, offset);
      && (r.error == Ok ==>
            At(r.world, f.(polled := false, erased := offset + EraseSize(w.session, offset)))
            && MayErase(FactsOf(r.world), offset + EraseSize(w.session, offset))
                && SizeOf(FactsOf(r.world)) == SizeOf(f))
      && (r.error != Ok ==> GivenUp(r.world, f.params, r.error))
  {
    hide Observe, Safe, GivenUp, ImageStartChecked, SizeOf, EraseBlock, Poll;
    PollAt(env, w, f);
    var (cancelled, w1) := Poll(env, w);
    if !cancelled {
      var f1 := FactsOf(w1);
      SameImage(f, f1);
      EraseBlockAt(env, w1, f1, offset);
      SameImage(f1, f1.(polled := false, erased := offset + EraseSize(w.session, offset)));
    }
  }

  lemma {:induction false} EraseFromAt(env: Env, w: World, f: Facts, offset: nat)
    requires At(w, f) && Working(f) && MayErase(f, offset)
    requires f.params == Some(w.session.params) && w.session.payloadSize == SizeOf(f)
    ensures var r := EraseFrom(env, w, offset);
      && (r.error == Ok ==>
            At(r.world, f.(polled := FactsOf(r.world).polled, erased := SizeOf(f))))
      && (r.error != Ok ==> GivenUp(r.world, f.params, r.error))
    decreases w.session.payloadSize - offset
  {
    hide Observe, Safe, GivenUp, ImageStartChecked, SizeOf, EraseNext;
    if offset < w.session.payloadSize {
      EraseNextAt(env, w, f, offset);
      var step := EraseNext(env, w, offset);
      if step.error == Ok {
        EraseFromAt(env, step.world, FactsOf(step.world), offset + EraseSize(w.session, offset));
      }
    }
  }

  lemma SameHeader(f: Facts, g: Facts)
    requires g.params == f.params && g.received == f.received
    ensures HeaderChecked(g) == HeaderChecked(f)
  {
    hide HeaderError;
  }

  /** The checks of the image start depend on nothing that flash operations change. */
  lemma SameImage(f: Facts, g: Facts)
    requires g.params == f.params && g.received == f.received && g.verified == f.verified && g.admitted == f.admitted
    ensures ImageStartChecked(g) == ImageStartChecked(f) && Authorised(g) == Authorised(f) && SizeOf(g) == SizeOf(f)
  {
    hide HeaderError, VectorError, Decode, PayloadSize, Sha256.Digest;
  }

  // ----- write

  /** The next payload bytes to go to flash are `data`. */
  predicate MayWrite(f: Facts, data: seq<byte>) {
    hide ImageStartChecked;
    && ImageStartChecked(f) && f.erased == SizeOf(f)
    && |f.written| + |data| <= SizeOf(f)
    && PAYLOAD_OFFSET + |f.written| + |data| <= |f.received|
    && data == f.received[384 + |f.written|..384 + |f.written| + |data|]
  }

  /** The session and its hash agree with what was written. */
  predicate InStep(w: World, f: Facts) {
    && f.params == Some(w.session.params)
    && w.session.writeOffset == |f.written| && w.hashed == f.written
  }

  function AfterWrite(s: Session, data: seq<byte>): Session
    requires s.writeOffset + |data| <= UINT32_MAX
  {
    s.(writeOffset := s.writeOffset + |data|, payloadWritten := s.payloadWritten + |data|,
       payloadCrc := Crc16.Crc(s.payloadCrc, data))
  }

  /** What the answer to a write leads to. */
  lemma WroteAt(env: Env, w: World, f: Facts, e: Event, s: Session)
    requires At(w, f) && Working(f) && e.Wrote? && Allowed(f, e)
    ensures var w2 := NoteIn(Tick(env, w), e).(session := s);
      && (e.result != 0 ==> GivenUp(w2, f.params, WriteError))
      && (e.result == 0 && !Succeeded(e) ==> GivenUp(w2, f.params, ShortWrite))
      && (Succeeded(e) ==> At(Tick(env, w2), f.(polled := false, written := f.written + e.data)))
      && (Succeeded(e) && Late(env.timeMs(w.history), env.timeMs(w2.history), FLASH_OPERATION_MAX_MS) ==>
            GivenUp(Tick(env, w2), f.params, WriteTimeout))
  {
    hide Grown, Observe, Safe, Allowed, Late;
    TickAt(env, w, f);
    Noted(Tick(env, w), f, e);
    var w2 := NoteIn(Tick(env, w), e).(session := s);
    assert At(w2, Learn(f, e));
    TickAt(env, w2, Learn(f, e));
  }

  /** A block of 512 bytes, or less at the end of the vectors or of the bytes at hand. */
  predicate FullBlock(f: Facts, data: seq<byte>) {
    0 < |data| <= 512 && (|data| == 512 || PartEnds(f, |f.written| + |data|))
  }

  lemma WriteAllowed(f: Facts, e: Event)
    requires e.Wrote? && OperationMayFollow(f) && MayWrite(f, e.data)
    requires e.offset == |f.written| && FullBlock(f, e.data)
    ensures Allowed(f, e)
  {
    hide ImageStartChecked, SizeOf;
  }

  lemma WriteBlockAt(env: Env, w: World, f: Facts, data: seq<byte>)
    requires At(w, f) && Working(f) && OperationMayFollow(f) && MayWrite(f, data) && InStep(w, f)
    requires FullBlock(f, data)
    ensures var r := WriteBlock(env, w, data);
      && (r.error == Ok ==>
            && At(r.world, f.(polled := false, written := f.written + data))
            && r.world.session == AfterWrite(w.session, data) && r.world.hashed == w.hashed + data)
      && (r.error != Ok ==> GivenUp(r.world, f.params, r.error))
  {
    hide Observe, Safe, Allowed, MayWrite, FullBlock, OperationMayFollow, GivenUp, Late, Crc16.Crc;
    var (result, next) := env.writes(Tick(env, w).history, w.session.writeOffset, data);
    var e := Wrote(w.session.writeOffset, data, result, next);
    WriteAllowed(f, e);
    WroteAt(env, w, f, e, w.session.(writeOffset := next));
  }

  lemma SplitWrite(f: Facts, g: Facts, data: seq<byte>, size: nat)
    requires MayWrite(f, data) && size <= |data|
    requires g == f.(polled := g.polled, written := f.written + data[..size])
    ensures MayWrite(f, data[..size]) && MayWrite(g, data[size..])
    ensures data != [] && PartEnds(f, |f.written| + |data|) ==>
      && (size == Min(|data|, 512) ==> FullBlock(f, data[..size]))
      && PartEnds(g, |g.written| + |data[size..]|)
  {
    hide ImageStartChecked, SizeOf;
    SameImage(f, g);
  }

  lemma {:induction false} WritePayloadAt(env: Env, w: World, f: Facts, data: seq<byte>)
    requires At(w, f) && Working(f) && MayWrite(f, data) && InStep(w, f)
    requires data != [] ==> PartEnds(f, |f.written| + |data|)
    ensures var r := WritePayload(env, w, data);
      && (r.error == Ok ==>
            && At(r.world, f.(polled := FactsOf(r.world).polled, written := f.written + data))
            && r.world.session == AfterWrite(w.session, data) && r.world.hashed == w.hashed + data)
      && (r.error != Ok ==> GivenUp(r.world, f.params, r.error))
    decreases |data|
  {
    hide Observe, Safe, GivenUp, MayWrite, FullBlock, PartEnds, WriteBlock, Poll, Crc16.Crc;
    if data == [] {
      CrcOfNothing(w.session.payloadCrc);
      assert f.written + data == f.written && w.hashed + data == w.hashed;
    } else {
      PollAt(env, w, f);
      var (cancelled, w1) := Poll(env, w);
      if !cancelled {
        var f1 := FactsOf(w1);
        var size := Min(|data|, WRITE_BLOCK_SIZE);
        assert f1 == f.(polled := f1.polled, written := f.written + data[..0]);
        SplitWrite(f, f1, data, 0);
        assert data[0..] == data;
        var f2 := f1.(polled := false, written := f1.written + data[..size]);
        SplitWrite(f1, f2, data, size);
        WriteBlockAt(env, w1, f1, data[..size]);
        var step := WriteBlock(env, w1, data[..size]);
        if step.error == Ok {
          WritePayloadAt(env, step.world, f2, data[size..]);
          Crc16.Composes(w.session.payloadCrc, data[..size], data[size..]);
          assert data == data[..size] + data[size..];
          assert (f.written + data[..size]) + data[size..] == f.written + data;
          assert (w.hashed + data[..size]) + data[size..] == w.hashed + data;
        }
      }
    }
  }

  lemma CrcOfNothing(crc: Crc16.Word)
    ensures Crc16.Crc(crc, []) == crc
  {
  }

  // ----- header

  lemma AdmitAt(env: Env, w: World, f: Facts)
    requires At(w, f) && Working(f) && HeaderChecked(f) && f.verified.Some? && |f.received| >= PAYLOAD_OFFSET
    requires f.params == Some(w.session.params) && w.session.metadata == Decode(HeaderOf(f.received))
    ensures var r := Admit(env, w);
      && (r.error == Ok ==>
            var g := FactsOf(r.world);
            && At(r.world, f.(polled := g.polled, admitted := g.admitted))
            && (w.session.params.hasCancellation ==> g.polled)
            && (w.session.params.hasAdmission ==> g.admitted == Some(w.session.metadata)))
      && (r.error != Ok ==> GivenUp(r.world, f.params, r.error))
  {
    hide Observe, Safe, HeaderChecked, Decode, Poll;
    PollAt(env, w, f);
    var (cancelled, w1) := Poll(env, w);
    if !cancelled && w.session.params.hasAdmission {
      var f1 := FactsOf(w1);
      SameHeader(f, f1);
      Noted(w1, f1, Admitted(w.session.metadata, env.admits(w1.history, w.session.metadata)));
    }
  }

  /** What a verdict on the signature leads to. */
  lemma VerdictAt(env: Env, w: World, f: Facts, e: Event)
    requires At(w, f) && Working(f) && e.Verified? && Allowed(f, e)
    ensures var w3 := NoteIn(Tick(env, w), e);
      && (e.result == 0 ==> At(w3, Learn(f, e)))
      && (e.result == -2 ==> GivenUp(w3, f.params, KeyFormat))
      && (e.result != 0 && e.result != -2 ==> GivenUp(w3, f.params, SignatureError))
      && (e.result == 0 && Late(env.timeMs(w.history), env.timeMs(w3.history), SIGNATURE_MAX_MS) ==>
            GivenUp(Tick(env, w3), f.params, SignatureTimeout))
  {
    hide Observe, Safe, Allowed, Late;
    TickAt(env, w, f);
    var w3 := NoteIn(Tick(env, w), e);
    Noted(Tick(env, w), f, e);
    TickAt(env, w3, Learn(f, e));
  }

  lemma AuthenticateAt(env: Env, w: World, f: Facts)
    requires At(w, f) && Working(f) && HeaderChecked(f) && f.verified.None? && |f.received| >= PAYLOAD_OFFSET
    requires f.params == Some(w.session.params) && w.session.metadata == Decode(HeaderOf(f.received))
    requires w.session.header == HeaderOf(f.received) && w.session.signature == SignatureOf(f.received)
    ensures var r := Authenticate(env, w);
      && (r.error == Ok ==>
            var g := FactsOf(r.world);
            && At(r.world, f.(polled := g.polled, verified := g.verified, admitted := g.admitted)) && Authorised(g)
            && (w.session.params.hasCancellation ==> g.polled))
      && (r.error != Ok ==> GivenUp(r.world, f.params, r.error))
  {
    hide Observe, Safe, HeaderChecked, Decode, Poll, Admit, Sha256.Digest, Late, GivenUp;
    PollAt(env, w, f);
    var (cancelled, w1) := Poll(env, w);
    if !cancelled {
      var f1 := FactsOf(w1);
      SameHeader(f, f1);
      var w2 := Tick(env, w1);
      var digest := Sha256.Digest(w.session.header);
      var e := Verified(w.session.params.publicKey, digest, w.session.signature,
                        env.verifies(w2.history, w.session.params.publicKey, digest, w.session.signature));
      VerdictAt(env, w1, f1, e);
      if e.result == 0 {
        var w3, f3 := NoteIn(w2, e), Learn(f1, e);
        TickAt(env, w3, f3);
        SameHeader(f, f3);
        AdmitAt(env, Tick(env, w3), f3);
        var done := Admit(env, Tick(env, w3));
        if done.error == Ok {
          SameHeader(f, FactsOf(done.world));
        }
      }
    }
  }

  // ----- the first payload bytes

  lemma StartImageAt(env: Env, w: World, f: Facts, rest: seq<byte>)
    requires At(w, f) && Working(f) && Authorised(f) && InStep(w, f) && f.erased == 0 && f.written == []
    requires w.session.payloadSize == SizeOf(f) && VECTOR_SIZE + |rest| <= SizeOf(f)
    requires PAYLOAD_OFFSET + VECTOR_SIZE + |rest| == |f.received|
    requires w.session.vectors == VectorsOf(f.received) && rest == f.received[392..392 + |rest|]
    ensures var r := StartImage(env, w, rest);
      && (r.error == Ok ==>
            && At(r.world, f.(polled := FactsOf(r.world).polled, erased := SizeOf(f),
                written := w.session.vectors + rest))
            && ImageStartChecked(FactsOf(r.world))
            && r.world.session == AfterWrite(AfterWrite(w.session.(erased := true), w.session.vectors), rest)
            && r.world.hashed == w.session.vectors + rest)
      && (r.error != Ok ==> GivenUp(r.world, f.params, r.error))
  {
    hide Observe, Safe, GivenUp, Authorised, SizeOf, VectorError, EraseFrom, WritePayload, Crc16.Crc;
    var v := w.session.vectors;
    if VectorError(w.session.params, w.session.payloadSize, v) != Ok {
      VectorsGiveUp(w, f);
    } else {
      assert ImageStartChecked(f);
      EraseFromAt(env, w, f, 0);
      var erase := EraseFrom(env, w, 0);
      if erase.error == Ok {
        var f1 := FactsOf(erase.world);
        SameImage(f, f1);
        WritePayloadAt(env, erase.world, f1, v);
        var first := WritePayload(env, erase.world, v);
        if first.error == Ok {
          var f2 := FactsOf(first.world);
          SameImage(f1, f2);
          assert [] + v == v;
          WritePayloadAt(env, first.world, f2, rest);
          var last := WritePayload(env, first.world, rest);
          if last.error == Ok {
            SameImage(f2, FactsOf(last.world));
          }
        }
      }
    }
  }

  // ----- the receive loop

  /** The session has taken `r`, a prefix of the bytes handed over, and nothing has gone wrong. */
  predicate Progress(w: World, r: seq<byte>) {
    hide Authorised, ImageStartChecked, SessionOf;
    var f := FactsOf(w);
    && Safe(w.history.log) && Working(f)
    && f.params == Some(w.session.params) && PAYLOAD_OFFSET < w.session.params.packageSize <= UINT32_MAX
    && r <= f.received && |f.received| <= w.session.params.packageSize
    && w.session == SessionOf(w.session.params, r)
    && w.hashed == PayloadOf(r) == f.written && f.readBack == []
    && (|r| < PAYLOAD_OFFSET ==> f.verified.None?)
    && (|r| >= PAYLOAD_OFFSET ==> Authorised(f))
    && (PAYLOAD_OFFSET <= |r| < PAYLOAD_OFFSET + VECTOR_SIZE && w.session.params.hasCancellation ==> f.polled)
    && (|r| < PAYLOAD_OFFSET + VECTOR_SIZE ==> f.erased == 0)
    && (|r| >= PAYLOAD_OFFSET + VECTOR_SIZE ==> ImageStartChecked(f) && f.erased == SizeOf(f))
  }

  lemma AuthorisedSize(f: Facts)
    requires Authorised(f)
    ensures f.params.Some? && |f.received| >= PAYLOAD_OFFSET
    ensures SizeOf(f) + PAYLOAD_OFFSET == f.params.value.packageSize && SizeOf(f) >= 0x300
  {
    hide Sha256.Digest, Decode, Le32;
    var h := HeaderOf(f.received);
    assert FormatError(f.params.value, h) == Ok by { hide FormatError; }
    FormatBounds(f.params.value, h);
  }

  lemma FormatBounds(p: Params, h: Header)
    requires FormatError(p, h) == Ok
    ensures SizeInBounds(p, PayloadSize(h)) && SizeMatches(p, PayloadSize(h))
  {
  }

  lemma ProgressIsSane(w: World, r: seq<byte>, size: nat)
    requires Progress(w, r) && |r| + size <= w.session.params.packageSize
    ensures Sane(w.session, size)
  {
    hide Safe, Observe, Authorised, ImageStartChecked, Decode, Crc16.Crc;
    var f := FactsOf(w);
    if |r| >= PAYLOAD_OFFSET {
      AuthorisedSize(f);
      assert HeaderOf(r) == HeaderOf(f.received);
    }
  }

  lemma HeaderGrows(p: Params, r: seq<byte>, part: seq<byte>)
    requires |r| + |part| <= HEADER_SIZE
    ensures SessionOf(p, r + part)
         == SessionOf(p, r).(packageReceived := |r| + |part|, header := Splice(SessionOf(p, r).header, |r|, part))
  {
    hide Crc16.Crc;
    assert Part(r, 0, 320) == r && Part(r + part, 0, 320) == r + part;
    SplicePadded(320, r, part);
  }

  lemma SignatureGrows(p: Params, r: seq<byte>, part: seq<byte>)
    requires HEADER_SIZE <= |r| && |r| + |part| <= PAYLOAD_OFFSET
    ensures RawSession(p, r + part)
         == RawSession(p, r).(packageReceived := |r| + |part|,
                              signature := Splice(RawSession(p, r).signature, |r| - HEADER_SIZE, part))
  {
    hide Crc16.Crc;
    assert Part(r, 0, 320) == r[..320] == Part(r + part, 0, 320);
    assert Part(r + part, 320, 384) == Part(r, 320, 384) + part;
    SplicePadded(64, Part(r, 320, 384), part);
  }

  /** Taking vector bytes changes the vector buffer; the counters and the image follow. */
  lemma VectorsGrow(p: Params, r: seq<byte>, part: seq<byte>)
    requires PAYLOAD_OFFSET <= |r| && |r| + |part| <= PAYLOAD_OFFSET + VECTOR_SIZE && |r| < PAYLOAD_OFFSET + VECTOR_SIZE
    ensures var s, t := SessionOf(p, r), SessionOf(p, r + part);
      && t.header == s.header && t.signature == s.signature && t.metadata == s.metadata
          && t.payloadSize == s.payloadSize
      && t.vectors == Splice(s.vectors, s.vectorsSize, part) && t.vectorsSize == s.vectorsSize + |part|
      && (|r| + |part| < PAYLOAD_OFFSET + VECTOR_SIZE ==>
            t == s.(packageReceived := |r| + |part|, vectors := t.vectors, vectorsSize := t.vectorsSize))
  {
    hide Crc16.Crc, PayloadSize, Decode;
    assert HeaderOf(r + part) == HeaderOf(r);
    assert Part(r, 0, 320) == Part(r + part, 0, 320) && Part(r, 320, 384) == Part(r + part, 320, 384);
    assert Part(r + part, 384, 392) == Part(r, 384, 392) + part;
    SplicePadded(8, Part(r, 384, 392), part);
  }

  /** Bytes after the vectors only move the counters, the checksum and the write offset. */
  lemma PayloadGrows(p: Params, r: seq<byte>, part: seq<byte>)
    requires PAYLOAD_OFFSET + VECTOR_SIZE <= |r| && |r| + |part| <= UINT32_MAX
    ensures SessionOf(p, r + part) == Advance(AfterWrite(SessionOf(p, r), part), |part|)
    ensures PayloadOf(r + part) == PayloadOf(r) + part
  {
    hide PayloadSize, Decode;
    assert HeaderOf(r + part) == HeaderOf(r);
    assert Part(r, 0, 320) == Part(r + part, 0, 320) && Part(r, 320, 384) == Part(r + part, 320, 384);
    assert Part(r, 384, 392) == Part(r + part, 384, 392);
    assert PayloadOf(r + part) == PayloadOf(r) + part;
    Crc16.Composes(Crc16.ZERO, PayloadOf(r), part);
    hide Crc16.Crc;
  }

  /** What one turn of the receive loop comes to. */
  predicate Taken(step: Outcome, w: World, r: seq<byte>) {
    if step.error == Ok then
      && Progress(step.world, r)
      && FactsOf(step.world).received == FactsOf(w).received && FactsOf(step.world).params == FactsOf(w).params
    else GivenUp(step.world, FactsOf(w).params, step.error)
  }

  lemma TakeHeaderAt(w: World, r: seq<byte>, part: seq<byte>)
    requires Progress(w, r) && r + part <= FactsOf(w).received && |r| + |part| <= HEADER_SIZE
    ensures Taken(Outcome(Ok, TakeHeader(w, part)), w, r + part)
  {
    hide Safe, Observe, Authorised, ImageStartChecked, SessionOf;
    HeaderGrows(w.session.params, r, part);
    SessionCounts(w.session.params, r);
  }

  lemma SessionCounts(p: Params, r: seq<byte>)
    requires |r| <= UINT32_MAX
    ensures var s := SessionOf(p, r);
      && s.params == p && s.packageReceived == |r| && s.vectorsSize == |Part(r, 384, 392)|
      && s.erased == (|r| >= 392) && s.writeOffset == |PayloadOf(r)|
  {
    hide Decode, PayloadSize, Crc16.Crc;
  }

  lemma TakeSignatureAt(env: Env, w: World, r: seq<byte>, part: seq<byte>)
    requires Progress(w, r) && r + part <= FactsOf(w).received
    requires HEADER_SIZE <= |r| < PAYLOAD_OFFSET && |r| + |part| <= PAYLOAD_OFFSET && part != []
    requires w.session.packageReceived == |r|
    ensures Taken(TakeSignaturePart(env, w, part), w, r + part)
  {
    hide Safe, Observe, Authorised, ImageStartChecked, RawSession, ValidateHeader;
    var p, r' := w.session.params, r + part;
    var w1 := TakeSignature(w, part);
    SignatureGrows(p, r, part);
    assert w1.session == RawSession(p, r');
    if |r'| == PAYLOAD_OFFSET {
      RawFull(p, r');
      ValidateAt(env, w1, r');
    }
  }

  lemma RawFull(p: Params, r: seq<byte>)
    requires |r| == PAYLOAD_OFFSET
    ensures RawSession(p, r).header == HeaderOf(r) && RawSession(p, r).signature == SignatureOf(r)
    ensures RawSession(p, r).params == p && RawSession(p, r).packageReceived == PAYLOAD_OFFSET
    ensures RawSession(p, r).writeOffset == 0
  {
    hide Crc16.Crc;
  }

  /** The session after the header was authenticated. */
  lemma AuthenticatedAt(w: World, w': World, r: seq<byte>)
    requires |r| == PAYLOAD_OFFSET && r <= FactsOf(w).received
    requires Working(FactsOf(w)) && FactsOf(w).params == Some(w.session.params)
    requires PAYLOAD_OFFSET < w.session.params.packageSize
    requires PAYLOAD_OFFSET <= |FactsOf(w).received| <= w.session.params.packageSize <= UINT32_MAX
    requires FactsOf(w).written == [] == FactsOf(w).readBack && FactsOf(w).erased == 0
    requires Safe(w'.history.log) && Authorised(FactsOf(w'))
    requires var g := FactsOf(w');
      && g == FactsOf(w).(polled := g.polled, verified := g.verified, admitted := g.admitted)
      && (w.session.params.hasCancellation ==> g.polled)
    requires w'.session == SessionOf(w.session.params, r) && w'.session.params == w.session.params && w'.hashed == []
    ensures Taken(Outcome(Ok, w'), w, r)
  {
    hide Safe, Observe, GivenUp, Authorised, ImageStartChecked, SessionOf;
    assert PayloadOf(r) == [];
  }

  lemma ValidateAt(env: Env, w: World, r: seq<byte>)
    requires Safe(w.history.log) && |r| == PAYLOAD_OFFSET && r <= FactsOf(w).received
    requires Working(FactsOf(w)) && FactsOf(w).params == Some(w.session.params)
    requires PAYLOAD_OFFSET <= |FactsOf(w).received| <= w.session.params.packageSize <= UINT32_MAX
    requires w.session == RawSession(w.session.params, r) && w.hashed == [] == FactsOf(w).written
    requires FactsOf(w).readBack == [] && FactsOf(w).verified.None? && FactsOf(w).erased == 0
    ensures Taken(ValidateHeader(env, w), w, r)
  {
    hide Grown, Safe, Observe, GivenUp, Authorised, Progress, RawSession, Authenticate, HeaderError, Decode,
         PayloadSize;
    var f, p := FactsOf(w), w.session.params;
    RawFull(p, r);
    assert HeaderOf(r) == HeaderOf(f.received) && SignatureOf(r) == SignatureOf(f.received);
    if HeaderError(p, w.session.header) != Ok {
      HeaderGivesUp(w, f, HeaderError(p, w.session.header));
    } else {
      var w1 := w.(session := w.session.(payloadSize := PayloadSize(HeaderOf(r)), metadata := Decode(HeaderOf(r))));
      AuthenticateAt(env, w1, f);
      var step := Authenticate(env, w1);
      if step.error == Ok {
        SizeAnnounced(f, FactsOf(step.world));
        AuthenticatedAt(w, step.world, r);
      }
    }
  }

  lemma SizeAnnounced(f: Facts, g: Facts)
    requires Authorised(g) && g.params == f.params
    ensures f.params.Some? && PAYLOAD_OFFSET < f.params.value.packageSize
  {
    hide Authorised;
    AuthorisedSize(g);
  }

  lemma TakeVectorsAt(env: Env, w: World, r: seq<byte>, part: seq<byte>)
    requires Progress(w, r) && r + part <= FactsOf(w).received && part != []
    requires PAYLOAD_OFFSET <= |r| < PAYLOAD_OFFSET + VECTOR_SIZE && w.session.vectorsSize == |r| - PAYLOAD_OFFSET
    requires |r| + |part| < PAYLOAD_OFFSET + VECTOR_SIZE
    ensures var step := AcceptPayload(env, w, part);
      step.error == Ok && Taken(step.(world := step.world.(session := Advance(step.world.session, |part|))), w,
          r + part)
  {
    hide Safe, Observe, Authorised, ImageStartChecked, SessionOf, StartImage, Crc16.Crc;
    VectorsGrow(w.session.params, r, part);
    SessionCounts(w.session.params, r);
    assert part[..|part|] == part;
    var s := w.session;
    var t := s.(vectors := Splice(s.vectors, s.vectorsSize, part), vectorsSize := s.vectorsSize + |part|);
    assert AcceptPayload(env, w, part) == Outcome(Ok, w.(session := t));
    assert Advance(t, |part|) == SessionOf(s.params, r + part);
    assert PayloadOf(r + part) == [];
  }

  /** The session after the first payload bytes were written. */
  lemma StartedAt(w: World, w': World, r: seq<byte>)
    requires |r| >= PAYLOAD_OFFSET + VECTOR_SIZE && r <= FactsOf(w).received
    requires Working(FactsOf(w)) && FactsOf(w).params == Some(w.session.params) && FactsOf(w).readBack == []
    requires PAYLOAD_OFFSET < w.session.params.packageSize <= UINT32_MAX
    requires |FactsOf(w).received| <= w.session.params.packageSize && Authorised(FactsOf(w))
    requires Safe(w'.history.log) && ImageStartChecked(FactsOf(w'))
    requires var f, g := FactsOf(w), FactsOf(w');
      g == f.(polled := g.polled, erased := SizeOf(f), written := PayloadOf(r))
    requires w'.session == SessionOf(w.session.params, r) && w'.session.params == w.session.params
    requires w'.hashed == PayloadOf(r)
    ensures Taken(Outcome(Ok, w'), w, r)
  {
    hide Safe, Observe, GivenUp, Authorised, ImageStartChecked, SessionOf;
    SameImage(FactsOf(w), FactsOf(w'));
  }

  lemma TakeFirstBytesAt(env: Env, w: World, r: seq<byte>, part: seq<byte>)
    requires Progress(w, r) && r + part == FactsOf(w).received && part != []
    requires PAYLOAD_OFFSET <= |r| < PAYLOAD_OFFSET + VECTOR_SIZE && w.session.vectorsSize == |r| - PAYLOAD_OFFSET
    requires |r| + |part| >= PAYLOAD_OFFSET + VECTOR_SIZE
    ensures var step := AcceptPayload(env, w, part);
      && (step.error == Ok ==>
            Taken(step.(world := step.world.(session := Advance(step.world.session, |part|))), w, r + part))
      && (step.error != Ok ==> GivenUp(step.world, FactsOf(w).params, step.error))
  {
    hide Safe, Observe, Authorised, ImageStartChecked, SessionOf, StartImage, Crc16.Crc, GivenUp, SizeOf;
    var f, p := FactsOf(w), w.session.params;
    var copied := PAYLOAD_OFFSET + VECTOR_SIZE - |r|;
    var head, rest := part[..copied], part[copied..];
    var full := r + head;
    VectorsGrow(p, r, head);
    SessionCounts(p, r);
    AuthorisedSize(f);
    FullVectors(p, full);
    assert full == f.received[..392] && rest == f.received[392..392 + |rest|];
    var w1 := w.(session := w.session.(vectors := VectorsOf(full), vectorsSize := VECTOR_SIZE));
    SizeFromHeader(p, r, f);
    assert VectorsOf(full) == VectorsOf(f.received);
    StartImageAt(env, w1, f, rest);
    assert r + part == full + rest;
    PayloadGrows(p, full, rest);
    FirstImage(p, r, head);
    var step := StartImage(env, w1, rest);
    if step.error == Ok {
      var s := w1.session.(erased := true);
      AdvanceCommutes(AfterWrite(s, w1.session.vectors), |head|, rest);
      StartedAt(w, step.world.(session := Advance(step.world.session, |part|)), r + part);
    }
  }

  lemma AdvanceCommutes(s: Session, n: nat, data: seq<byte>)
    requires s.writeOffset + |data| <= UINT32_MAX
    ensures Advance(AfterWrite(Advance(s, n), data), |data|) == Advance(AfterWrite(s, data), n + |data|)
  {
    hide Crc16.Crc;
  }

  lemma FullVectors(p: Params, r: seq<byte>)
    requires |r| == PAYLOAD_OFFSET + VECTOR_SIZE
    ensures SessionOf(p, r).vectors == VectorsOf(r) && PayloadOf(r) == VectorsOf(r)
  {
    hide Decode, PayloadSize, Crc16.Crc;
  }

  lemma SizeFromHeader(p: Params, r: seq<byte>, f: Facts)
    requires |r| >= PAYLOAD_OFFSET && r <= f.received && |r| <= UINT32_MAX
    ensures SessionOf(p, r).payloadSize == SizeOf(f)
  {
    hide Decode, PayloadSize, Crc16.Crc;
    assert HeaderOf(r) == HeaderOf(f.received);
  }

  /** The session after the eight vector bytes were erased for and written. */
  lemma FirstImage(p: Params, r: seq<byte>, head: seq<byte>)
    requires PAYLOAD_OFFSET <= |r| < PAYLOAD_OFFSET + VECTOR_SIZE && |r| + |head| == PAYLOAD_OFFSET + VECTOR_SIZE
    ensures var s := SessionOf(p, r).(vectors := VectorsOf(r + head), vectorsSize := VECTOR_SIZE, erased := true);
      s.writeOffset == 0 &&
      SessionOf(p, r + head) == Advance(AfterWrite(s, VectorsOf(r + head)), |head|)
  {
    hide Decode, PayloadSize, Crc16.Crc;
    VectorsGrow(p, r, head);
    FullVectors(p, r + head);
    CrcOfNothing(Crc16.ZERO);
  }

  lemma TakePayloadAt(env: Env, w: World, r: seq<byte>, part: seq<byte>)
    requires Progress(w, r) && r + part == FactsOf(w).received && part != []
    requires PAYLOAD_OFFSET + VECTOR_SIZE <= |r| && w.session.erased
    ensures var step := AcceptPayload(env, w, part);
      && (step.error == Ok ==>
            Taken(step.(world := step.world.(session := Advance(step.world.session, |part|))), w, r + part))
      && (step.error != Ok ==> GivenUp(step.world, FactsOf(w).params, step.error))
  {
    hide Safe, Observe, Authorised, ImageStartChecked, SessionOf, WritePayload, Crc16.Crc, GivenUp, SizeOf;
    var f, p := FactsOf(w), w.session.params;
    SessionCounts(p, r);
    AuthorisedSize(f);
    PayloadGrows(p, r, part);
    WritePayloadAt(env, w, f, part);
    var step := WritePayload(env, w, part);
    if step.error == Ok {
      SameImage(f, FactsOf(step.world));
    }
  }
}
