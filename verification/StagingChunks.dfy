/** The outcome of a package does not depend on how it is cut into chunks. */
module StagingChunks {
  import opened Bytes
  import opened StagingTypes
  import opened PackageHeader
  import opened StagingModel
  import opened StagingLog
  import opened StagingInvariant
  import opened StagingRuns
  import opened StagingTheorems
  import Crc16
  import Sha256

  type Verdict = (seq<byte>, seq<byte>, seq<byte>) -> int
  type Policy = Metadata -> bool

  /**
   * In the session after `past` nobody cancels, flash operations succeed in time, and the verdicts on a header depend
   * on the header alone.
   */
  ghost predicate Cooperative(env: Env, past: seq<seq<Event>>, verdict: Verdict, policy: Policy) {
    && (forall h: History | h.past == past :: !env.cancels(h))
    && (forall h: History, m | h.past == past :: env.admits(h, m) == policy(m))
    && (forall h: History, k, d, s | h.past == past :: env.verifies(h, k, d, s) == verdict(k, d, s))
    && (forall h: History, o: nat, n: nat | h.past == past :: env.erases(h, o, n) == 0)
    && (forall h: History, o: nat, d: seq<byte> | h.past == past && o + |d| <= UINT32_MAX ::
          env.writes(h, o, d) == (0, o + |d|))
    && (forall h: History, e | h.past == past && Operation(e) ::
          !Late(env.timeMs(h), env.timeMs(Note(Note(h, Ticked(env.timeMs(h))), e)), Limit(e)))
  }

  lemma OperationInTime(env: Env, h: History, verdict: Verdict, policy: Policy, e: Event)
    requires Cooperative(env, h.past, verdict, policy) && Operation(e)
    ensures !Late(env.timeMs(h), env.timeMs(Note(Note(h, Ticked(env.timeMs(h))), e)), Limit(e))
  {
    hide Late;
  }

  /** The error that a header, its signature and, once they are there, the vectors call for. */
  function ErrorFor(p: Params, verdict: Verdict, policy: Policy, h: Header, s: Signature, v: Option<Vectors>): Error {
    hide HeaderError, VectorError, Sha256.Digest, Decode;
    var headerError := HeaderError(p, h);
    var checked := verdict(p.publicKey, Sha256.Digest(h), s);
    if headerError != Ok then headerError
    else if checked == -2 then KeyFormat
    else if checked != 0 then SignatureError
    else if p.hasAdmission && !policy(Decode(h)) then AdmissionRejected
    else if v.None? then Ok
    else VectorError(p, PayloadSize(h), v.value)
  }

  /** The error, if any, that the bytes `r` call for. */
  function ErrorIn(p: Params, verdict: Verdict, policy: Policy, r: seq<byte>): Error {
    hide ErrorFor;
    if |r| < PAYLOAD_OFFSET then Ok
    else ErrorFor(p, verdict, policy, HeaderOf(r), SignatureOf(r),
                  if |r| < PAYLOAD_OFFSET + VECTOR_SIZE then None else Some(VectorsOf(r)))
  }

  lemma VectorsComeLast(p: Params, verdict: Verdict, policy: Policy, h: Header, s: Signature, v: Vectors)
    ensures var e := ErrorFor(p, verdict, policy, h, s, None);
      ErrorFor(p, verdict, policy, h, s, Some(v)) == if e != Ok then e else VectorError(p, PayloadSize(h), v)
  {
    hide HeaderError, VectorError, Sha256.Digest, Decode, PayloadSize;
  }

  /** An error stays the answer, whatever follows. */
  lemma ErrorsPersist(p: Params, verdict: Verdict, policy: Policy, r: seq<byte>, more: seq<byte>)
    requires ErrorIn(p, verdict, policy, r) != Ok
    ensures ErrorIn(p, verdict, policy, r + more) == ErrorIn(p, verdict, policy, r)
  {
    hide ErrorFor;
    var r' := r + more;
    assert HeaderOf(r') == HeaderOf(r) && SignatureOf(r') == SignatureOf(r);
    if |r| >= PAYLOAD_OFFSET + VECTOR_SIZE {
      assert VectorsOf(r') == VectorsOf(r);
    } else if |r'| >= PAYLOAD_OFFSET + VECTOR_SIZE {
      VectorsComeLast(p, verdict, policy, HeaderOf(r), SignatureOf(r), VectorsOf(r'));
    }
  }

  // ----- a cooperative platform lets every flash operation pass

  lemma NoPollCancels(env: Env, w: World, verdict: Verdict, policy: Policy)
    requires Cooperative(env, w.history.past, verdict, policy)
    ensures !Poll(env, w).0
  {
  }

  lemma {:induction false} EraseSucceeds(env: Env, w: World, verdict: Verdict, policy: Policy, offset: nat)
    requires Cooperative(env, w.history.past, verdict, policy)
    ensures EraseFrom(env, w, offset).error == Ok
    decreases w.session.payloadSize - offset
  {
    hide Cooperative, EraseBlock, Poll;
    if offset < w.session.payloadSize {
      var w1, size := Poll(env, w).1, EraseSize(w.session, offset);
      NoPollCancels(env, w, verdict, policy);
      EraseBlockSucceeds(env, w1, verdict, policy, offset, size);
      EraseSucceeds(env, EraseBlock(env, w1, offset, size).world, verdict, policy, offset + size);
    }
  }

  lemma EraseBlockSucceeds(env: Env, w: World, verdict: Verdict, policy: Policy, offset: nat, size: nat)
    requires Cooperative(env, w.history.past, verdict, policy)
    ensures EraseBlock(env, w, offset, size).error == Ok
  {
    hide Late;
    OperationInTime(env, w.history, verdict, policy, Erased(offset, size, 0));
  }

  lemma WriteBlockSucceeds(env: Env, w: World, verdict: Verdict, policy: Policy, data: seq<byte>)
    requires Cooperative(env, w.history.past, verdict, policy) && w.session.writeOffset + |data| <= UINT32_MAX
    ensures WriteBlock(env, w, data).error == Ok
    ensures WriteBlock(env, w, data).world.session.writeOffset == w.session.writeOffset + |data|
  {
    hide Late, Crc16.Crc;
    var o := w.session.writeOffset;
    OperationInTime(env, w.history, verdict, policy, Wrote(o, data, 0, o + |data|));
  }

  lemma {:induction false} WriteSucceeds(env: Env, w: World, verdict: Verdict, policy: Policy, data: seq<byte>)
    requires Cooperative(env, w.history.past, verdict, policy) && w.session.writeOffset + |data| <= UINT32_MAX
    ensures WritePayload(env, w, data).error == Ok
    ensures WritePayload(env, w, data).world.session.writeOffset == w.session.writeOffset + |data|
    decreases |data|
  {
    hide WriteBlock, Poll;
    if data != [] {
      var w1 := Poll(env, w).1;
      NoPollCancels(env, w, verdict, policy);
      var size := Min(|data|, WRITE_BLOCK_SIZE);
      WriteBlockSucceeds(env, w1, verdict, policy, data[..size]);
      WriteSucceeds(env, WriteBlock(env, w1, data[..size]).world, verdict, policy, data[size..]);
    }
  }

  lemma ValidateDecides(env: Env, w: World, verdict: Verdict, policy: Policy, r: seq<byte>)
    requires Cooperative(env, w.history.past, verdict, policy) && |r| == PAYLOAD_OFFSET
    requires w.session.header == HeaderOf(r) && w.session.signature == SignatureOf(r)
    ensures ValidateHeader(env, w).error == ErrorIn(w.session.params, verdict, policy, r)
  {
    hide HeaderError, Sha256.Digest, Decode, PayloadSize, Poll, Late;
    var s := w.session.(payloadSize := PayloadSize(HeaderOf(r)), metadata := Decode(HeaderOf(r)));
    var w0 := w.(session := s);
    NoPollCancels(env, w0, verdict, policy);
    var w1 := Poll(env, w0).1;
    var digest := Sha256.Digest(s.header);
    var e := Verified(s.params.publicKey, digest, s.signature, verdict(s.params.publicKey, digest, s.signature));
    OperationInTime(env, w1.history, verdict, policy, e);
    NoPollCancels(env, Tick(env, NoteIn(Tick(env, w1), e)), verdict, policy);
  }

  lemma StartDecides(env: Env, w: World, verdict: Verdict, policy: Policy, rest: seq<byte>)
    requires Cooperative(env, w.history.past, verdict, policy)
    requires w.session.writeOffset + VECTOR_SIZE + |rest| <= UINT32_MAX
    ensures StartImage(env, w, rest).error == VectorError(w.session.params, w.session.payloadSize, w.session.vectors)
  {
    hide VectorError, EraseFrom, WritePayload, Cooperative;
    EraseSucceeds(env, w, verdict, policy, 0);
    var w1 := EraseFrom(env, w, 0).world;
    WriteSucceeds(env, w1, verdict, policy, w.session.vectors);
    WriteSucceeds(env, WritePayload(env, w1, w.session.vectors).world, verdict, policy, rest);
  }

  // ----- one part, one chunk, all chunks

  /** The bytes taken so far call for no error. */
  predicate Clean(w: World, verdict: Verdict, policy: Policy, r: seq<byte>) {
    ErrorIn(w.session.params, verdict, policy, r) == Ok
  }

  /** After a good header only the vector table can still be at fault. */
  lemma OnlyVectorsCanFail(p: Params, verdict: Verdict, policy: Policy, r: seq<byte>, part: seq<byte>)
    requires |r| >= PAYLOAD_OFFSET && ErrorIn(p, verdict, policy, r) == Ok
    ensures var r' := r + part;
      ErrorIn(p, verdict, policy, r')
      == if |r| >= PAYLOAD_OFFSET + VECTOR_SIZE || |r'| < PAYLOAD_OFFSET + VECTOR_SIZE then Ok
         else VectorError(p, PayloadSize(HeaderOf(r)), VectorsOf(r'))
  {
    hide ErrorFor, VectorError, PayloadSize;
    var r' := r + part;
    assert HeaderOf(r') == HeaderOf(r) && SignatureOf(r') == SignatureOf(r);
    if |r| >= PAYLOAD_OFFSET + VECTOR_SIZE {
      assert VectorsOf(r') == VectorsOf(r);
    } else if |r'| >= PAYLOAD_OFFSET + VECTOR_SIZE {
      VectorsComeLast(p, verdict, policy, HeaderOf(r), SignatureOf(r), VectorsOf(r'));
    }
  }

  lemma AcceptDecides(env: Env, w: World, verdict: Verdict, policy: Policy, r: seq<byte>, part: seq<byte>)
    requires Cooperative(env, w.history.past, verdict, policy) && Progress(w, r) && Clean(w, verdict, policy, r)
    requires |r| >= PAYLOAD_OFFSET && r + part <= FactsOf(w).received && part != []
      && w.session.vectorsSize <= VECTOR_SIZE
    ensures AcceptPayload(env, w, part).error == ErrorIn(w.session.params, verdict, policy, r + part)
  {
    hide Safe, Observe, Authorised, ImageStartChecked, SessionOf, ErrorIn, VectorError, PayloadSize,
         WritePayload, StartImage, Cooperative;
    var p, r' := w.session.params, r + part;
    OnlyVectorsCanFail(p, verdict, policy, r, part);
    SessionCounts(p, r);
    if |r| >= PAYLOAD_OFFSET + VECTOR_SIZE {
      WriteSucceeds(env, w, verdict, policy, part);
    } else if |r'| >= PAYLOAD_OFFSET + VECTOR_SIZE {
      var copied := VECTOR_SIZE - w.session.vectorsSize;
      var head := part[..copied];
      VectorsGrow(p, r, head);
      FullVectors(p, r + head);
      assert VectorsOf(r + head) == VectorsOf(r');
      SizeFromReceived(p, r);
      var w1 := w.(session := w.session.(vectors := VectorsOf(r'), vectorsSize := VECTOR_SIZE));
      StartDecides(env, w1, verdict, policy, part[copied..]);
    }
  }

  lemma SizeFromReceived(p: Params, r: seq<byte>)
    requires PAYLOAD_OFFSET <= |r| <= UINT32_MAX
    ensures SessionOf(p, r).payloadSize == PayloadSize(HeaderOf(r))
  {
    hide PayloadSize, Decode, RawSession;
  }

  lemma TakePartDecides(env: Env, w: World, verdict: Verdict, policy: Policy, r: seq<byte>, part: seq<byte>)
    requires Cooperative(env, w.history.past, verdict, policy) && Progress(w, r) && Clean(w, verdict, policy, r)
    requires r + part <= FactsOf(w).received && part != []
    requires Sane(w.session, |part|) && PartSize(w.session, |part|) == |part|
    ensures TakePart(env, w, part).error == ErrorIn(w.session.params, verdict, policy, r + part)
  {
    hide Safe, Observe, Authorised, ImageStartChecked, SessionOf, AcceptPayload, Cooperative, ValidateHeader,
         HeaderError, VectorError, Sha256.Digest, Decode;
    var p := w.session.params;
    SessionCounts(p, r);
    if |r| >= PAYLOAD_OFFSET {
      AcceptDecides(env, w, verdict, policy, r, part);
    } else if |r| >= HEADER_SIZE && |r| + |part| == PAYLOAD_OFFSET {
      assert SessionOf(p, r) == RawSession(p, r) by { RawUntilSigned(p, r); }
      SignatureGrows(p, r, part);
      RawFull(p, r + part);
      ValidateDecides(env, TakeSignature(w, part), verdict, policy, r + part);
    }
  }

  lemma RawUntilSigned(p: Params, r: seq<byte>)
    requires |r| < PAYLOAD_OFFSET
    ensures SessionOf(p, r) == RawSession(p, r)
  {
    hide RawSession;
  }

  lemma {:induction false} ReceiveDecides(env: Env, w: World, verdict: Verdict, policy: Policy, r: seq<byte>,
                                        data: seq<byte>)
    requires Cooperative(env, w.history.past, verdict, policy) && Progress(w, r) && Clean(w, verdict, policy, r)
    requires r + data == FactsOf(w).received && (data != [] ==> Sane(w.session, |data|))
    ensures Receive(env, w, data).error == ErrorIn(w.session.params, verdict, policy, r + data)
    decreases |data|
  {
    hide Progress, GivenUp, TakePart, PartSize, Observe, ErrorIn, Cooperative;
    if data == [] {
      assert r + data == r;
    } else {
      var n := PartSize(w.session, |data|);
      PartSizeStable(w.session, |data|);
      var part, rest := data[..n], data[n..];
      assert (r + part) + rest == r + data;
      assert r + part <= FactsOf(w).received;
      TakePartAt(env, w, r, part);
      TakePartDecides(env, w, verdict, policy, r, part);
      var step := TakePart(env, w, part);
      if step.error == Ok {
        if rest != [] {
          TakePartCounts(env, w, part);
        }
        ReceiveDecides(env, step.world, verdict, policy, r + part, rest);
      } else {
        ErrorsPersist(w.session.params, verdict, policy, r + part, rest);
      }
    }
  }

  /** The session is receiving, and what it has received calls for no error. */
  predicate Open(w: World, verdict: Verdict, policy: Policy) {
    Inv(w) && w.session.state == Receiving && Clean(w, verdict, policy, FactsOf(w).received)
  }

  lemma ChunkDecides(env: Env, w: World, verdict: Verdict, policy: Policy, data: seq<byte>)
    requires Cooperative(env, w.history.past, verdict, policy) && Open(w, verdict, policy)
    requires |FactsOf(w).received| + |data| <= w.session.params.packageSize
    ensures Sane(w.session, 0)
    ensures var r := WritePackage(env, w, Bytes(data));
      var received := FactsOf(w).received + data;
      && r.error == ErrorIn(w.session.params, verdict, policy, received)
      && (r.error == Ok ==>
            && Open(r.world, verdict, policy) && FactsOf(r.world).received == received
            && r.world.session.params == w.session.params && r.world.history.past == w.history.past)
  {
    hide Progress, Observe, Safe, Tokens, HoldsToken, Receive, ErrorIn, Cooperative, Poll, Sane;
    var f := FactsOf(w);
    ReceivedCount(w);
    ProgressIsSane(w, f.received, 0);
    TakeChunkKeeps(env, w, data);
    OfferKeepsProgress(w, data);
    var w1 := NoteIn(w, Offered(data));
    ProgressIsSane(w1, f.received, |data|);
    PollKeepsProgress(env, w1, f.received);
    NoPollCancels(env, w1, verdict, policy);
    var w2 := Poll(env, w1).1;
    ReceiveDecides(env, w2, verdict, policy, f.received, data);
    ReceiveAt(env, w2, f.received, data);
  }

  /** Handing over chunks until one is refused. */
  function WriteAll(env: Env, w: World, chunks: seq<seq<byte>>): Outcome
    requires Inv(w)
    decreases |chunks|
  {
    hide Inv, WritePackage;
    if chunks == [] then Outcome(Ok, w)
    else
      WritePackageKeeps(env, w, Bytes(chunks[0]));
      var step := WritePackage(env, w, Bytes(chunks[0]));
      if step.error != Ok then step else WriteAll(env, step.world, chunks[1..])
  }

  lemma {:induction false} ChunksDecide(env: Env, w: World, verdict: Verdict, policy: Policy, chunks: seq<seq<byte>>)
    requires Cooperative(env, w.history.past, verdict, policy) && Open(w, verdict, policy)
    requires |FactsOf(w).received| + |Concat(chunks)| <= w.session.params.packageSize
    ensures var r := WriteAll(env, w, chunks);
      var received := FactsOf(w).received + Concat(chunks);
      && r.error == ErrorIn(w.session.params, verdict, policy, received)
      && (r.error == Ok ==>
            && Open(r.world, verdict, policy) && FactsOf(r.world).received == received
            && r.world.session.params == w.session.params && r.world.history.past == w.history.past)
    decreases |chunks|
  {
    hide Inv, Observe, ErrorIn, Cooperative, WritePackage;
    var received := FactsOf(w).received;
    if chunks == [] {
      assert received + Concat(chunks) == received;
    } else {
      ChunkDecides(env, w, verdict, policy, chunks[0]);
      var step := WritePackage(env, w, Bytes(chunks[0]));
      assert (received + chunks[0]) + Concat(chunks[1..]) == received + Concat(chunks);
      if step.error == Ok {
        ChunksDecide(env, step.world, verdict, policy, chunks[1..]);
      } else {
        ErrorsPersist(w.session.params, verdict, policy, received + chunks[0], Concat(chunks[1..]));
      }
    }
  }

  /** Two receiving sessions with the same parameters and the same bytes are the same, and so is their flash. */
  lemma SameBytesSameSession(w: World, w': World, flash: seq<byte>)
    requires Inv(w) && Inv(w') && w.session.state == Receiving && w'.session.state == Receiving
    requires w.session.params == w'.session.params && FactsOf(w).received == FactsOf(w').received
    requires |flash| == w.session.params.ota.length
    ensures w.session == w'.session && w.hashed == w'.hashed
    ensures FlashAfter(w.history.log, flash) == FlashAfter(w'.history.log, flash)
  {
    hide Observe, Safe, Authorised, ImageStartChecked, SessionOf, Tokens, FlashAfter, SizeOf, Tiled, Explained;
    var f, f' := FactsOf(w), FactsOf(w');
    ParamsStay(w.history.log, |w.history.log|);
    ParamsStay(w'.history.log, |w'.history.log|);
    assert w.history.log[..|w.history.log|] == w.history.log && w'.history.log[..|w'.history.log|] == w'.history.log;
    PartitionHoldsPayload(w.history.log, flash);
    PartitionHoldsPayload(w'.history.log, flash);
    assert SizeOf(f) == SizeOf(f') by { SameSize(f, f'); }
  }

  lemma SameSize(f: Facts, g: Facts)
    requires f.received == g.received
    ensures SizeOf(f) == SizeOf(g)
  {
    hide PayloadSize;
  }

  /**
   * Chunk independence: on a cooperative platform, every way of cutting the bytes into chunks, empty ones included,
   * ends in the same error as a single call; without an error it leaves the same session and the same flash.
   */
  lemma ChunkIndependence(env: Env, w: World, verdict: Verdict, policy: Policy, chunks: seq<seq<byte>>,
                          flash: seq<byte>)
    requires Cooperative(env, w.history.past, verdict, policy) && Open(w, verdict, policy)
    requires |FactsOf(w).received| + |Concat(chunks)| <= w.session.params.packageSize
    requires |flash| == w.session.params.ota.length
    ensures Sane(w.session, 0)
    ensures var many, one := WriteAll(env, w, chunks), WritePackage(env, w, Bytes(Concat(chunks)));
      && many.error == one.error
      && (one.error == Ok ==>
            && many.world.session == one.world.session && many.world.hashed == one.world.hashed
            && FlashAfter(many.world.history.log, flash) == FlashAfter(one.world.history.log, flash))
  {
    hide Inv, Observe, ErrorIn, Cooperative, WritePackage, WriteAll, Concat, FlashAfter;
    ChunksDecide(env, w, verdict, policy, chunks);
    ChunkDecides(env, w, verdict, policy, Concat(chunks));
    var many, one := WriteAll(env, w, chunks), WritePackage(env, w, Bytes(Concat(chunks)));
    if one.error == Ok {
      SameBytesSameSession(many.world, one.world, flash);
    }
  }

  /** A session that has just begun is open, whatever the platform will say. */
  lemma BeginOpens(env: Env, w: World, verdict: Verdict, policy: Policy, size: nat, key: Option<seq<byte>>,
                   hasAdmission: bool, hasCancellation: bool)
    requires Inv(w) && Begin(env, w, size, key, hasAdmission, hasCancellation).error == Ok
    ensures var w' := Begin(env, w, size, key, hasAdmission, hasCancellation).world;
      Open(w', verdict, policy) && FactsOf(w').received == []
  {
    hide Inv, Observe;
    BeginKeeps(env, w, size, key, hasAdmission, hasCancellation);
    var w' := Begin(env, w, size, key, hasAdmission, hasCancellation).world;
    FirstEvent(w'.session.params);
  }
}
