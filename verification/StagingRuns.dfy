/** Safety over whole runs: every sequence of calls, in every environment. */
module StagingRuns {
  import opened Bytes
  import opened StagingTypes
  import opened PackageHeader
  import opened StagingModel
  import opened StagingLog
  import opened StagingInvariant
  import StagingActivation
  import Crc16
  import Sha256

  // ----- receiving

  lemma TakePartAt(env: Env, w: World, r: seq<byte>, part: seq<byte>)
    requires Progress(w, r) && r + part <= FactsOf(w).received && part != []
    requires Sane(w.session, |part|) && PartSize(w.session, |part|) == |part|
    requires w.session.packageReceived >= PAYLOAD_OFFSET ==> r + part == FactsOf(w).received
    ensures Taken(TakePart(env, w, part), w, r + part)
  {
    hide Safe, Observe, Authorised, ImageStartChecked, SessionOf, AcceptPayload, TakeSignaturePart, GivenUp;
    SessionCounts(w.session.params, r);
    if |r| < HEADER_SIZE {
      TakeHeaderAt(w, r, part);
    } else if |r| < PAYLOAD_OFFSET {
      TakeSignatureAt(env, w, r, part);
    } else if |r| + |part| < PAYLOAD_OFFSET + VECTOR_SIZE {
      TakeVectorsAt(env, w, r, part);
    } else if |r| < PAYLOAD_OFFSET + VECTOR_SIZE {
      TakeFirstBytesAt(env, w, r, part);
    } else {
      TakePayloadAt(env, w, r, part);
    }
  }

  lemma {:induction false} ReceiveAt(env: Env, w: World, r: seq<byte>, data: seq<byte>)
    requires Progress(w, r) && r + data == FactsOf(w).received && (data != [] ==> Sane(w.session, |data|))
    ensures Taken(Receive(env, w, data), w, r + data)
    decreases |data|
  {
    hide Progress, GivenUp, TakePart, PartSize, Observe;
    if data == [] {
      assert r + data == r;
    } else {
      var n := PartSize(w.session, |data|);
      PartSizeStable(w.session, |data|);
      var part, rest := data[..n], data[n..];
      assert (r + part) + rest == r + data;
      assert r + part <= FactsOf(w).received;
      TakePartAt(env, w, r, part);
      var step := TakePart(env, w, part);
      if step.error == Ok {
        if rest != [] {
          TakePartCounts(env, w, part);
        }
        ReceiveAt(env, step.world, r + part, rest);
      }
    }
  }

  // ----- read-back

  /** The descriptor buffer holds what has been read of the image's bytes 0x200 to 0x2FF. */
  predicate Covers(descriptor: seq<byte>, bytes: seq<byte>) {
    |descriptor| == DESCRIPTOR_SIZE
    && forall i | 0 <= i < DESCRIPTOR_SIZE && DESCRIPTOR_OFFSET + i < |bytes| ::
        descriptor[i] == bytes[DESCRIPTOR_OFFSET + i]
  }

  /** The block-wise copy reassembles the descriptor, whatever the sizes of the blocks. */
  lemma CopyDescriptorCovers(descriptor: seq<byte>, bytes: seq<byte>, block: seq<byte>)
    requires Covers(descriptor, bytes)
    ensures Covers(CopyDescriptor(descriptor, |bytes|, block), bytes + block)
  {
    var d := CopyDescriptor(descriptor, |bytes|, block);
    forall i | 0 <= i < DESCRIPTOR_SIZE && DESCRIPTOR_OFFSET + i < |bytes + block|
      ensures d[i] == (bytes + block)[DESCRIPTOR_OFFSET + i]
    {
    }
  }

  predicate MayRead(f: Facts, offset: nat) {
    hide ImageStartChecked;
    ImageStartChecked(f) && Streamed(f) && |f.written| == SizeOf(f) && offset == |f.readBack| <= SizeOf(f)
  }

  lemma ReadBlockAt(env: Env, w: World, f: Facts, offset: nat)
    requires At(w, f) && Working(f) && OperationMayFollow(f) && MayRead(f, offset) && offset < SizeOf(f)
    ensures var size := Min(SizeOf(f) - offset, READ_BACK_BLOCK_SIZE);
      var (r, block) := ReadBlock(env, w, offset, size);
      && (r.error == Ok ==> At(r.world, f.(polled := false, readBack := f.readBack + block)))
      && (r.error != Ok ==> GivenUp(r.world, f.params, r.error))
  {
    hide Observe, Safe, Allowed, MayRead, OperationMayFollow, GivenUp, SizeOf, Late, Grown;
    var size := Min(SizeOf(f) - offset, READ_BACK_BLOCK_SIZE);
    var w1 := Tick(env, w);
    var (result, next) := env.fetches(w1.history, offset, size);
    var e := ReadBack(offset, Delivered(env, w1.history, offset, size), result, next);
    ReadAllowed(f, e);
    ReadAt(env, w, f, e);
  }

  lemma ReadAllowed(f: Facts, e: Event)
    requires e.ReadBack? && OperationMayFollow(f) && MayRead(f, e.offset) && e.offset < SizeOf(f)
    requires |e.data| == Min(SizeOf(f) - e.offset, READ_BACK_BLOCK_SIZE)
    ensures Allowed(f, e)
  {
    hide ImageStartChecked, SizeOf, Streamed;
  }

  /** What the answer to a read leads to. */
  lemma ReadAt(env: Env, w: World, f: Facts, e: Event)
    requires At(w, f) && Working(f) && e.ReadBack? && Allowed(f, e)
    ensures var w2 := NoteIn(Tick(env, w), e);
      && (!Succeeded(e) ==> GivenUp(w2, f.params, ReadBackError))
      && (Succeeded(e) ==> At(Tick(env, w2), f.(polled := false, readBack := f.readBack + e.data)))
      && (Succeeded(e) && Late(env.timeMs(w.history), env.timeMs(w2.history), FLASH_OPERATION_MAX_MS) ==>
            GivenUp(Tick(env, w2), f.params, ReadBackTimeout))
  {
    hide Grown, Observe, Safe, Allowed, Late;
    TickAt(env, w, f);
    Noted(Tick(env, w), f, e);
    var w2 := NoteIn(Tick(env, w), e);
    TickAt(env, w2, Learn(f, e));
  }

  lemma NextRead(f: Facts, g: Facts)
    requires MayRead(f, |f.readBack|) && |f.readBack| <= |g.readBack| <= SizeOf(f)
    requires g == f.(polled := g.polled, readBack := g.readBack)
    ensures MayRead(g, |g.readBack|) && SizeOf(g) == SizeOf(f)
  {
    hide ImageStartChecked, SizeOf;
    SameImage(f, g);
  }

  lemma ReadNextAt(env: Env, w: World, f: Facts, descriptor: seq<byte>)
    requires At(w, f) && Working(f) && MayRead(f, |f.readBack|)
    requires |descriptor| == DESCRIPTOR_SIZE && Covers(descriptor, f.readBack) && |f.readBack| < SizeOf(f)
    requires f.params == Some(w.session.params) && w.session.payloadSize == SizeOf(f)
    ensures var r := ReadNext(env, w, |f.readBack|, f.readBack, descriptor);
      && (r.outcome.error == Ok ==>
            && At(r.outcome.world, f.(polled := false, readBack := r.bytes))
            && |r.bytes| == |f.readBack| + ReadSize(w.session, |f.readBack|) && Covers(r.descriptor, r.bytes))
      && (r.outcome.error != Ok ==> GivenUp(r.outcome.world, f.params, r.outcome.error))
  {
    hide Observe, Safe, MayRead, SizeOf, ReadBlock, Poll, GivenUp, CopyDescriptor, Covers;
    PollAt(env, w, f);
    var (cancelled, w1) := Poll(env, w);
    if !cancelled {
      var f1, offset := FactsOf(w1), |f.readBack|;
      NextRead(f, f1);
      ReadBlockAt(env, w1, f1, offset);
      CopyDescriptorCovers(descriptor, f.readBack, ReadBlock(env, w1, offset, ReadSize(w.session, offset)).1);
    }
  }

  lemma {:induction false} ReadFromAt(env: Env, w: World, f: Facts, descriptor: seq<byte>)
    requires At(w, f) && Working(f) && MayRead(f, |f.readBack|)
    requires |descriptor| == DESCRIPTOR_SIZE && Covers(descriptor, f.readBack) && |f.readBack| <= SizeOf(f)
    requires f.params == Some(w.session.params) && w.session.payloadSize == SizeOf(f)
    ensures var r := ReadFrom(env, w, |f.readBack|, f.readBack, descriptor);
      && r.outcome.world.session == w.session.(payloadVerified := r.outcome.world.session.payloadVerified)
      && r.outcome.world.hashed == w.hashed
      && (r.outcome.error == Ok ==>
            && At(r.outcome.world, f.(polled := FactsOf(r.outcome.world).polled, readBack := r.bytes))
            && |r.bytes| == SizeOf(f) && Covers(r.descriptor, r.bytes))
      && (r.outcome.error != Ok ==> GivenUp(r.outcome.world, f.params, r.outcome.error))
    decreases w.session.payloadSize - |f.readBack|
  {
    hide Observe, Safe, MayRead, SizeOf, ReadNext, GivenUp, Covers;
    if |f.readBack| < w.session.payloadSize {
      ReadNextAt(env, w, f, descriptor);
      var step := ReadNext(env, w, |f.readBack|, f.readBack, descriptor);
      if step.outcome.error == Ok {
        var g := FactsOf(step.outcome.world);
        NextRead(f, g);
        ReadFromAt(env, step.outcome.world, g, step.descriptor);
      }
    }
  }

  // ----- finish

  lemma Fetched(descriptor: seq<byte>, bytes: seq<byte>)
    requires Covers(descriptor, bytes) && |bytes| >= 0x300
    ensures descriptor == bytes[0x200..0x300]
  {
  }

  /** A complete package: header, signature and payload, all of it hashed and on its way through flash. */
  predicate Complete(w: World) {
    var s := w.session;
    s.packageReceived == s.params.packageSize && s.authenticated && s.payloadWritten == s.payloadSize
  }

  lemma CompleteMeans(w: World, r: seq<byte>)
    requires Progress(w, r) && Complete(w)
    ensures var f := FactsOf(w);
      && r == f.received && |r| >= PAYLOAD_OFFSET + VECTOR_SIZE && |r| == PAYLOAD_OFFSET + SizeOf(f)
      && ImageStartChecked(f) && f.written == r[384..] && w.hashed == f.written && SizeOf(f) >= 0x300
      && w.session.payloadSize == SizeOf(f) && w.session.header == HeaderOf(r)
      && w.session.metadata == Decode(HeaderOf(r)) && w.session.ready == ZeroInfo()
      && w.session.payloadCrc == Crc16.Crc(Crc16.ZERO, f.written)
  {
    hide Safe, Observe, Authorised, ImageStartChecked, Decode, PayloadSize, Crc16.Crc;
    AuthorisedSize(FactsOf(w));
    assert HeaderOf(r) == HeaderOf(FactsOf(w).received);
  }

  /** A complete image, streamed with the right digest and read back in full. */
  predicate ReadyToJudge(f: Facts, s: Session) {
    hide ImageStartChecked, Sha256.Digest, Crc16.Crc, Decode, SizeOf;
    && ImageStartChecked(f) && |f.received| >= PAYLOAD_OFFSET && |f.received| == PAYLOAD_OFFSET + SizeOf(f)
    && f.written == f.received[384..] && |f.readBack| == SizeOf(f) >= 0x300
    && s.header == HeaderOf(f.received) && s.metadata == Decode(s.header) && s.payloadSize == SizeOf(f)
    && s.payloadCrc == Crc16.Crc(Crc16.ZERO, f.written) && Sha256.Digest(f.written) == s.metadata.sha256
  }

  /** What the comparisons after the read-back establish. */
  lemma JudgedIsStaged(f: Facts, s: Session, descriptor: seq<byte>, info: ImageInfo)
    requires ReadyToJudge(f, s) && Covers(descriptor, f.readBack) && Judge(s, f.readBack, descriptor) == Ok
    requires info.payloadSize == s.payloadSize && info.crc16 == Crc16.Crc(Crc16.ZERO, f.readBack)
    requires info.sha256 == Sha256.Digest(f.readBack) && info.metadata == s.metadata
    ensures Staged(f, info)
  {
    hide ImageStartChecked, SizeOf, Sha256.Digest, Crc16.Crc, Covers;
    Fetched(descriptor, f.readBack);
    DecodedDigest(s.header);
  }

  lemma DecodedDigest(h: Header)
    ensures Decode(h).sha256 == h[20..52]
  {
    hide Le32;
  }

  // ----- the invariant

  const GENERATIONS: nat := UINT32_MAX

  /** The generation of the session that is the `k`-th to finish. */
  function Generation(k: nat): uint32 { 1 + k % GENERATIONS }

  function IssuedIn(log: seq<Event>): seq<ImageInfo> {
    if Observe(log).issued.Some? then [Observe(log).issued.value] else []
  }

  function IssuedBefore(past: seq<seq<Event>>): seq<ImageInfo> {
    if past == [] then [] else IssuedBefore(past[..|past| - 1]) + IssuedIn(past[|past| - 1])
  }

  /** Every token ever handed out, in order. */
  function AllIssued(h: History): seq<ImageInfo> { IssuedBefore(h.past) + IssuedIn(h.log) }

  predicate Numbered(issued: seq<ImageInfo>) {
    forall k | 0 <= k < |issued| :: issued[k].sessionGeneration == Generation(k)
  }

  predicate SafeHistory(h: History) {
    Safe(h.log) && Explained(h.log) && forall i | 0 <= i < |h.past| :: Safe(h.past[i]) && Explained(h.past[i])
  }

  /** A finished session holds the token it handed out, and nothing has touched it since. */
  predicate HoldsToken(w: World) {
    var f, s := FactsOf(w), w.session;
    && f.live && f.issued == Some(s.ready) && s.ready.sessionGeneration != 0 && s.ready.payloadSize == s.payloadSize
    && !f.closed && !f.consumed && f.previous.None? && f.tables == []
  }

  predicate Tokens(w: World) {
    && Numbered(AllIssued(w.history)) && w.nextGeneration == Generation(|AllIssued(w.history)|)
  }

  predicate Inv(w: World) {
    var f, s := FactsOf(w), w.session;
    && SafeHistory(w.history) && Tokens(w)
    && (w.history.log == [] <==> s.state == Idle)
    && (w.history.log == [] ==> w.session == FreshSession(NoParams(), Idle))
    && (w.history.log != [] ==> f.params == Some(s.params))
    && (f.cancelled ==> s.state == Cancelled)
    && (s.state == Receiving ==> Progress(w, f.received))
    && (s.state == Ready ==> HoldsToken(w))
    && (s.state != Ready ==> s.ready.sessionGeneration == 0 && !f.live)
    && s.state != Verifying && s.state != Activating
  }

  /** The parts of the invariant that concern the log and the tokens survive a step that hands out no token. */
  lemma TokensKept(w: World, w': World)
    requires Tokens(w) && w'.history.past == w.history.past && w'.nextGeneration == w.nextGeneration
    requires FactsOf(w').issued == FactsOf(w).issued
    ensures Tokens(w') && AllIssued(w'.history) == AllIssued(w.history)
  {
    hide Observe;
  }

  /** What a call may do to the tokens: nothing, or hand out one more; and no old token becomes the current one. */
  predicate Handed(w: World, w': World) {
    hide AllIssued;
    var before, after := AllIssued(w.history), AllIssued(w'.history);
    || (after == before && (w'.session.state == Ready ==> w.session.state == Ready))
    || (|after| == |before| + 1 && after[..|before|] == before && w.session.state == Receiving)
  }

  lemma FailKeeps(w: World, w': World, error: Error)
    requires Inv(w) && w.session.state == Receiving && error != Ok
    requires SameSession(w, w') && GivenUp(w', FactsOf(w).params, error)
    ensures Inv(Fail(w', error)) && Handed(w, Fail(w', error))
  {
    hide Observe, Safe, Progress, Explains, Explained;
    ClosedAt(w', FactsOf(w'), error);
    OpenIsExplained(w'.history.log);
    assert Fail(w', error).history.log == w'.history.log + [Closed(error)];
    ProgressIsCalm(w);
    TokensKept(w, Fail(w', error));
  }

  lemma ProgressIsCalm(w: World)
    requires Progress(w, FactsOf(w).received)
    ensures Working(FactsOf(w)) && Safe(w.history.log)
  {
    hide Observe, Safe, SessionOf, Authorised, ImageStartChecked;
  }

  // ----- every call keeps the invariant

  lemma BeginKeeps(env: Env, w: World, size: nat, key: Option<seq<byte>>, hasAdmission: bool, hasCancellation: bool)
    requires Inv(w)
    ensures var w' := Begin(env, w, size, key, hasAdmission, hasCancellation).world; Inv(w') && Handed(w, w')
  {
    hide Safe, Progress, Observe, HoldsToken;
    var r := Begin(env, w, size, key, hasAdmission, hasCancellation);
    if r.error == Ok {
      var p := r.world.session.params;
      FirstEvent(p);
      var past := r.world.history.past;
      assert past[..|past| - 1] == w.history.past;
      assert AllIssued(r.world.history) == AllIssued(w.history) + [];
      FreshProgress(r.world);
    } else if r.world != w {
      LookupKeeps(w, r.world);
    }
  }

  lemma LookupKeeps(w: World, w': World)
    requires Inv(w) && w.session.state != Receiving
    requires w' == w.(history := w.history.(lookups := w'.history.lookups))
    ensures Inv(w') && Handed(w, w')
  {
    hide Safe, Progress, Observe, Explained;
  }

  lemma FirstEvent(p: Params)
    requires PAYLOAD_OFFSET < p.packageSize <= UINT32_MAX
    ensures Safe([Began(p)]) && Observe([Began(p)]) == NoFacts().(params := Some(p))
  {
    assert [] + [Began(p)] == [Began(p)];
    Extended([], Began(p));
  }

  lemma FreshProgress(w: World)
    requires w.history.log == [Began(w.session.params)] && w.session == FreshSession(w.session.params, Receiving)
    requires w.hashed == [] && PAYLOAD_OFFSET < w.session.params.packageSize <= UINT32_MAX
    ensures Progress(w, [])
  {
    hide Safe, Observe, Decode, PayloadSize;
    FirstEvent(w.session.params);
    assert SessionOf(w.session.params, []) == FreshSession(w.session.params, Receiving);
  }

  lemma WritePackageKeeps(env: Env, w: World, buffer: Buffer)
    requires Inv(w)
    ensures w.session.state == Receiving ==> Sane(w.session, 0)
    ensures var w' := WritePackage(env, w, buffer).world; Inv(w') && Handed(w, w')
  {
    hide Safe, Progress, Observe, HoldsToken, Tokens, Sane, TakeChunk;
    if w.session.state == Receiving {
      var f := FactsOf(w);
      ReceivedCount(w);
      ProgressIsSane(w, f.received, 0);
      ProgressIsCalm(w);
      if buffer.Null? && buffer.size > 0 {
        MisuseGivesUp(w, NullArgument, InvalidArgument);
        FailKeeps(w, NoteIn(w, NullArgument), InvalidArgument);
      } else {
        var data := if buffer.Null? then [] else buffer.data;
        if |data| > w.session.params.packageSize - w.session.packageReceived {
          MisuseGivesUp(w, Refused(|data|), TrailingData);
          FailKeeps(w, NoteIn(w, Refused(|data|)), TrailingData);
        } else {
          TakeChunkKeeps(env, w, data);
        }
      }
    }
  }

  /** A chunk that is too long or an argument that is missing ends the session, and the log says which. */
  lemma MisuseGivesUp(w: World, e: Event, error: Error)
    requires Safe(w.history.log) && Working(FactsOf(w)) && Allowed(FactsOf(w), e)
    requires (e.Refused? && error == TrailingData) || (e.NullArgument? && error == InvalidArgument)
    ensures GivenUp(NoteIn(w, e), FactsOf(w).params, error)
  {
    hide Observe, Safe;
    Noted(w, FactsOf(w), e);
  }

  lemma ReceivedCount(w: World)
    requires Progress(w, FactsOf(w).received)
    ensures w.session.packageReceived == |FactsOf(w).received| <= w.session.params.packageSize
  {
    hide Observe, Safe, Authorised, ImageStartChecked, SessionOf;
    SessionCounts(w.session.params, FactsOf(w).received);
  }

  lemma OfferKeepsProgress(w: World, data: seq<byte>)
    requires Progress(w, FactsOf(w).received) && |FactsOf(w).received| + |data| <= w.session.params.packageSize
    ensures var w1 := NoteIn(w, Offered(data));
      Progress(w1, FactsOf(w).received) && At(w1, FactsOf(w).(received := FactsOf(w).received + data))
  {
    hide Observe, Safe, SessionOf, Authorised, ImageStartChecked, SizeOf;
    var f := FactsOf(w);
    OfferAt(w, f, data);
    MoreReceived(f, f.(received := f.received + data));
  }

  lemma OfferAt(w: World, f: Facts, data: seq<byte>)
    requires At(w, f) && Working(f) && |f.received| + |data| <= f.params.value.packageSize
    ensures At(NoteIn(w, Offered(data)), f.(received := f.received + data))
  {
    hide Observe, Safe;
    Noted(w, f, Offered(data));
  }

  /** Further bytes change nothing about the header, the signature and the vectors already there. */
  lemma MoreReceived(f: Facts, g: Facts)
    requires g == f.(received := g.received) && f.received <= g.received
    ensures Authorised(f) ==> Authorised(g) && SizeOf(g) == SizeOf(f)
    ensures ImageStartChecked(f) ==> ImageStartChecked(g)
  {
    hide HeaderError, VectorError, Decode, Sha256.Digest, PayloadSize;
    if |f.received| >= PAYLOAD_OFFSET {
      assert HeaderOf(g.received) == HeaderOf(f.received) && SignatureOf(g.received) == SignatureOf(f.received);
    }
    if |f.received| >= PAYLOAD_OFFSET + VECTOR_SIZE {
      assert VectorsOf(g.received) == VectorsOf(f.received);
    }
  }

  lemma PollKeepsProgress(env: Env, w: World, r: seq<byte>)
    requires Progress(w, r)
    ensures var (cancelled, w1) := Poll(env, w);
      && (!cancelled ==> Progress(w1, r) && FactsOf(w1) == FactsOf(w).(polled := FactsOf(w1).polled))
      && (cancelled ==> GivenUp(w1, FactsOf(w).params, CancelledError))
  {
    hide Observe, Safe, SessionOf, Authorised, ImageStartChecked, SizeOf, GivenUp, Poll;
    PollAt(env, w, FactsOf(w));
    var (cancelled, w1) := Poll(env, w);
    if !cancelled {
      SameImage(FactsOf(w), FactsOf(w1));
    }
  }

  lemma TakeChunkKeeps(env: Env, w: World, data: seq<byte>)
    requires Inv(w) && w.session.state == Receiving
    requires w.session.packageReceived + |data| <= w.session.params.packageSize
    ensures var w1 := NoteIn(w, Offered(data));
      Sane(w1.session, |data|) && Inv(TakeChunk(env, w1, data).world) && Handed(w, TakeChunk(env, w1, data).world)
    ensures var r := TakeChunk(env, NoteIn(w, Offered(data)), data);
      r.error == Ok ==> r.world.session.state == Receiving && FactsOf(r.world).received == FactsOf(w).received + data
  {
    hide Safe, Progress, Observe, HoldsToken, Tokens, Sane, Receive, Poll, GivenUp;
    var f := FactsOf(w);
    ReceivedCount(w);
    ProgressIsCalm(w);
    OfferKeepsProgress(w, data);
    var w1 := NoteIn(w, Offered(data));
    ProgressIsSane(w1, f.received, |data|);
    PollKeepsProgress(env, w1, f.received);
    var (cancelled, w2) := Poll(env, w1);
    if cancelled {
      FailKeeps(w, w2, CancelledError);
    } else {
      ReceiveAt(env, w2, f.received, data);
      var step := Receive(env, w2, data);
      if step.error != Ok {
        FailKeeps(w, step.world, step.error);
      } else {
        ProgressIsInv(w, step.world);
      }
    }
  }

  lemma ProgressIsInv(w: World, w': World)
    requires Inv(w) && w.session.state == Receiving && SameSession(w, w')
    requires Progress(w', FactsOf(w').received)
    ensures Inv(w') && w'.session.state == Receiving && Handed(w, w')
  {
    hide Safe, Observe, Authorised, ImageStartChecked, Decode, PayloadSize, Crc16.Crc, Explained;
    OpenIsExplained(w'.history.log);
    assert w'.history.log != [] by {
      assert FactsOf(w').params.Some?;
      NothingLogged();
    }
    TokensKept(w, w');
  }

  lemma NothingLogged()
    ensures Observe([]) == NoFacts()
  {
  }

  lemma FinishKeeps(env: Env, w: World, wanted: bool)
    requires Inv(w)
    ensures var w' := Finish(env, w, wanted).world; Inv(w') && Handed(w, w')
  {
    hide Safe, Progress, Observe, HoldsToken, Tokens, Verify, Poll, GivenUp, Explained;
    if w.session.state == Receiving {
      ProgressIsCalm(w);
      if !wanted {
        MisuseGivesUp(w, NullArgument, InvalidArgument);
        FailKeeps(w, NoteIn(w, NullArgument), InvalidArgument);
      } else if !Complete(w) {
        IncompleteIsExplained(w);
        CalmGivesUp(w, Incomplete);
        FailKeeps(w, w, Incomplete);
      } else {
        PollKeepsProgress(env, w, FactsOf(w).received);
        var (cancelled, w1) := Poll(env, w);
        if cancelled {
          FailKeeps(w, w1, CancelledError);
        } else {
          VerifyKeeps(env, w, w1);
        }
      }
    }
  }

  lemma CalmGivesUp(w: World, error: Error)
    requires Safe(w.history.log) && Working(FactsOf(w)) && error != CancelledError && Explains(w.history.log, error)
    ensures GivenUp(w, FactsOf(w).params, error)
  {
    hide Safe, Observe, Explains;
  }

  lemma IncompleteIsExplained(w: World)
    requires Progress(w, FactsOf(w).received) && !Complete(w)
    ensures Explains(w.history.log, Incomplete)
  {
    hide Safe, Observe, Authorised, ImageStartChecked, Decode, PayloadSize, Crc16.Crc;
    var f := FactsOf(w);
    LogIsThere(w, f);
    if |f.received| >= PAYLOAD_OFFSET {
      AuthorisedSize(f);
    }
  }

  /** The verification that Finish runs from a complete session: it hands out a token only for a staged image. */
  lemma VerifyKeeps(env: Env, w: World, w1: World)
    requires Inv(w) && w.session.state == Receiving && OnlyHistory(w, w1)
    requires Progress(w1, FactsOf(w1).received) && Complete(w1)
    requires FactsOf(w1) == FactsOf(w).(polled := FactsOf(w1).polled)
    ensures var w' := Verify(env, w1.(session := w1.session.(state := Verifying))).world; Inv(w') && Handed(w, w')
  {
    hide Inv, Safe, Progress, Observe, GivenUp, ReadFrom, Judge, Issue, Fail, SizeOf, Decode, ImageStartChecked, Covers,
         Sha256.Digest, Crc16.Crc, Complete, Explains;
    var f := FactsOf(w1);
    CompleteMeans(w1, f.received);
    ProgressIsCalm(w1);
    ReadBackEmpty(w1);
    var w2 := w1.(session := w1.session.(state := Verifying));
    if Sha256.Digest(w2.hashed) != w2.session.metadata.sha256 {
      StreamFault(w2, f);
      FailKeeps(w, w2, HashMismatch);
    } else {
      DecodedDigest(HeaderOf(f.received));
      ReadFromAt(env, w2, f, Zeros(256));
      var image := ReadFrom(env, w2, 0, [], Zeros(256));
      if image.outcome.error != Ok {
        FailKeeps(w, image.outcome.world, image.outcome.error);
      } else {
        SameImage(f, FactsOf(image.outcome.world));
        JudgeKeeps(w, image.outcome.world, image);
      }
    }
  }

  lemma StreamFault(w: World, f: Facts)
    requires At(w, f) && Working(f) && |f.received| >= PAYLOAD_OFFSET && w.hashed == f.written
    requires w.session.metadata == Decode(HeaderOf(f.received)) && Sha256.Digest(w.hashed) != w.session.metadata.sha256
    ensures GivenUp(w, f.params, HashMismatch)
  {
    hide Safe, Observe, Sha256.Digest;
    DecodedDigest(HeaderOf(f.received));
    LogIsThere(w, f);
  }

  /** The last comparisons, on an image that was read back completely. */
  lemma JudgeKeeps(w: World, w3: World, image: Image)
    requires Inv(w) && w.session.state == Receiving && SameSession(w, w3) && image.outcome.world == w3
    requires Safe(w3.history.log) && Working(FactsOf(w3)) && image.bytes == FactsOf(w3).readBack
    requires FactsOf(w3).params == Some(w3.session.params) == FactsOf(w).params && FactsOf(w).issued.None?
    requires ReadyToJudge(FactsOf(w3), w3.session) && Covers(image.descriptor, image.bytes)
    ensures var error := Judge(w3.session, image.bytes, image.descriptor);
      var w' := if error != Ok then Fail(w3, error)
                else Issue(w3, Crc16.Crc(Crc16.ZERO, image.bytes), Sha256.Digest(image.bytes));
      Inv(w') && Handed(w, w')
  {
    hide Inv, Safe, Observe, Judge, Issue, Fail, Sha256.Digest, Crc16.Crc, Covers, Staged, ReadyToJudge;
    var error := Judge(w3.session, image.bytes, image.descriptor);
    if error != Ok {
      JudgeFault(w3, FactsOf(w3), image.descriptor);
      FailKeeps(w, w3, error);
    } else {
      var info := ImageInfo(w3.nextGeneration, w3.session.payloadSize, Crc16.Crc(Crc16.ZERO, image.bytes),
                            Sha256.Digest(image.bytes), w3.session.metadata);
      JudgedIsStaged(FactsOf(w3), w3.session, image.descriptor, info);
      IssueKeeps(w, w3, info);
    }
  }

  lemma JudgeFault(w: World, f: Facts, descriptor: seq<byte>)
    requires At(w, f) && Working(f) && ReadyToJudge(f, w.session) && Covers(descriptor, f.readBack)
    requires Judge(w.session, f.readBack, descriptor) != Ok
    ensures GivenUp(w, f.params, Judge(w.session, f.readBack, descriptor))
  {
    hide Safe, Observe, Sha256.Digest, Crc16.Crc, ImageStartChecked, Covers, SizeOf;
    DecodedDigest(HeaderOf(f.received));
    LogIsThere(w, f);
    Fetched(descriptor, f.readBack);
  }

  lemma ReadBackEmpty(w: World)
    requires Progress(w, FactsOf(w).received)
    ensures FactsOf(w).readBack == [] && FactsOf(w).params == Some(w.session.params)
    ensures |FactsOf(w).received| <= w.session.params.packageSize <= UINT32_MAX
    ensures Covers(Zeros(256), [])
  {
    hide Safe, Observe, SessionOf, Authorised, ImageStartChecked;
  }

  lemma IssueKeeps(w: World, w3: World, info: ImageInfo)
    requires Inv(w) && w.session.state == Receiving && SameSession(w, w3)
    requires Safe(w3.history.log) && Working(FactsOf(w3)) && Staged(FactsOf(w3), info)
    requires FactsOf(w3).params == Some(w3.session.params) && FactsOf(w).issued.None?
    requires info == ImageInfo(w3.nextGeneration, w3.session.payloadSize, info.crc16, info.sha256, w3.session.metadata)
    ensures var w' := Issue(w3, info.crc16, info.sha256); Inv(w') && Handed(w, w')
  {
    hide Safe, Progress, Observe, Staged, Explained;
    var f, w' := FactsOf(w3), Issue(w3, info.crc16, info.sha256);
    Noted(w3, f, Issued(info));
    OpenIsExplained(w'.history.log);
    var before := AllIssued(w.history);
    assert IssuedIn(w.history.log) == [] && IssuedIn(w'.history.log) == [info];
    assert AllIssued(w'.history) == before + [info];
    GenerationSteps(|before|);
  }

  lemma GenerationSteps(k: nat)
    ensures NextGeneration(Generation(k)) == Generation(k + 1) && Generation(k) != 0
  {
    var q, x := k / GENERATIONS, k % GENERATIONS;
    assert k + 1 == GENERATIONS * q + x + 1;
    if x + 1 == GENERATIONS {
      assert k + 1 == GENERATIONS * (q + 1);
    }
  }

  // ----- activation

  lemma CopiesAt(env: Env, w: World, f: Facts)
    requires At(w, f) && f.consumed && !f.closed && f.tables != []
    ensures var (found, w') := ReadCopies(env, w);
      && At(w', f.(primary := FactsOf(w').primary, backup := FactsOf(w').backup))
      && (found.Some? ==> FactsOf(w').primary == found && FactsOf(w').backup == found)
  {
    hide Observe, Safe;
    var primary := env.copy(w.history, 0);
    CopyAt(w, f, 0, primary);
    if primary.Some? {
      var w1 := NoteIn(w, CopyRead(0, primary));
      CopyAt(w1, f.(primary := primary), 1, env.copy(w1.history, 1));
    }
  }

  lemma CopyAt(w: World, f: Facts, copy: nat, found: Option<BootTable>)
    requires At(w, f) && f.consumed && !f.closed && f.tables != [] && copy < 2
    ensures At(NoteIn(w, CopyRead(copy, found)), if copy == 0 then f.(primary := found) else f.(backup := found))
  {
    hide Observe, Safe;
    Noted(w, f, CopyRead(copy, found));
  }

  predicate MayStore(f: Facts, table: BootTable) {
    && f.consumed && !f.closed && f.previous.Some? && f.params.Some? && f.issued.Some?
    && (f.tables == [] ==> table == CandidateFor(f.params.value, f.issued.value))
    && (f.tables != [] ==> |f.tables| == 1 && table == f.previous.value)
  }

  lemma ClosedAt(w: World, f: Facts, error: Error)
    requires At(w, f) && f.params.Some? && !f.closed
    ensures At(Fail(w, error), f.(closed := true, live := false))
  {
    hide Observe, Safe;
    Noted(w, f, Closed(error));
  }

  lemma CommitIsStored(env: Env, w: World, table: BootTable)
    ensures var (verified, w') := Commit(env, w, table); verified <==> Stored(w'.history.log, table)
  {
    hide Commit, Stored, StagingActivation.AttemptOf, StagingActivation.Durable, StagingActivation.Events;
    StagingActivation.CommitTells(env, w, table);
    StagingActivation.StoredIff(w.history.log, StagingActivation.AttemptOf(env, w, table));
  }

  /** Writing one boot table and reading both copies back. */
  lemma CommitAt(env: Env, w: World, f: Facts, table: BootTable)
    requires At(w, f) && MayStore(f, table)
    ensures var (verified, w') := Commit(env, w, table);
      var g := FactsOf(w');
      && At(w', f.(tables := f.tables + [table], primary := g.primary, backup := g.backup))
      && (verified ==> g.primary == Some(table) && g.backup == Some(table))
      && (verified <==> Stored(w'.history.log, table))
  {
    hide Observe, Safe, ReadCopies, Late, Stored;
    CommitIsStored(env, w, table);
    TickAt(env, w, f);
    var w1 := Tick(env, w);
    var e := TableWritten(table, env.stores(w1.history, table));
    Noted(w1, f, e);
    var w2, f2 := NoteIn(w1, e), Learn(f, e);
    TickAt(env, w2, f2);
    TickAt(env, Tick(env, w2), f2);
    CopiesAt(env, Tick(env, Tick(env, w2)), f2);
    var (found, w5) := ReadCopies(env, Tick(env, Tick(env, w2)));
    TickAt(env, w5, FactsOf(w5));
  }

  /** What the log shows once a consumed token has been acted on. */
  predicate Installed(p: Params, info: ImageInfo, g: Facts, error: Error) {
    && g.params == Some(p) && g.issued == Some(info) && !g.cancelled && g.consumed && !g.live
    && var candidate := CandidateFor(p, info);
    && (error == Ok ==> !g.closed && g.tables == [candidate] && g.primary == g.backup == Some(candidate))
    && (error == ActivationError ==>
          || g.tables == []
          || (g.previous.Some? && g.tables == [candidate, g.previous.value] && g.primary == g.backup == g.previous))
    && (error == ActivationUncertain ==> g.previous.Some? && g.tables == [candidate, g.previous.value])
    && (error == Ok || error == ActivationError || error == ActivationUncertain)
  }

  /** A token has just been consumed. */
  predicate TokenConsumed(p: Params, info: ImageInfo, f: Facts) {
    && f.params == Some(p) && f.issued == Some(info) && !f.cancelled && f.consumed && !f.live && !f.closed
    && f.tables == []
  }

  lemma NothingInstalled(w: World, p: Params, info: ImageInfo, f: Facts)
    requires At(w, f) && TokenConsumed(p, info, f) && NotStarted(w.history.log, f)
    ensures var w' := Fail(w, ActivationError);
      Safe(w'.history.log) && Explained(w'.history.log) && Installed(p, info, FactsOf(w'), ActivationError)
  {
    hide Observe, Safe, CandidateFor, Explained, NotStarted;
    ClosedAt(w, f, ActivationError);
    LogIsThere(w, f);
    OpenIsExplained(w.history.log);
  }

  lemma InstallAt(env: Env, w: World, info: ImageInfo, f: Facts)
    requires At(w, f) && TokenConsumed(w.session.params, info, f) && f.previous.None?
    requires Candidate(w.session) == CandidateFor(w.session.params, info)
    ensures var r := Install(env, w);
      && Safe(r.world.history.log) && Explained(r.world.history.log)
      && Installed(w.session.params, info, FactsOf(r.world), r.error)
  {
    hide Observe, Safe, Commit, Late, CandidateFor, Candidate, Installed, Fail, Explained;
    TickAt(env, w, f);
    var w1 := Tick(env, w);
    TableReadAt(env, w1, f);
    var w2 := NoteIn(w1, TableRead(env.table(w1.history)));
    var f2 := FactsOf(w2);
    LogIsThere(w, f);
    if f2.previous.None? {
      NothingInstalled(w2, w.session.params, info, f2);
    } else {
      TickAt(env, w2, f2);
      var w3 := Tick(env, w2);
      if Late(env.timeMs(w.history), env.timeMs(w2.history), ACTIVATION_MAX_MS) {
        NothingInstalled(w3, w.session.params, info, f2);
      } else {
        InstallFrom(env, w3, info, f2);
        var (verified, w4) := Commit(env, w3, Candidate(w.session));
        if verified {
          assert w4.(session := w4.session.(state := Activated, lastError := Ok)).history == w4.history;
        }
      }
    }
  }

  lemma TableReadAt(env: Env, w: World, f: Facts)
    requires At(w, f) && f.consumed && !f.closed && f.previous.None? && f.tables == []
    ensures At(NoteIn(w, TableRead(env.table(w.history))), f.(previous := env.table(w.history)))
  {
    hide Observe, Safe;
    Noted(w, f, TableRead(env.table(w.history)));
  }

  /** The candidate was not stored, so the previous table is put back. */
  lemma RestoreFrom(env: Env, w: World, p: Params, info: ImageInfo, f: Facts)
    requires At(w, f) && f.tables == [CandidateFor(p, info)] && TokenConsumed(p, info, f.(tables := []))
      && f.previous.Some?
    ensures var (restored, w') := Commit(env, w, f.previous.value);
      var error := if restored then ActivationError else ActivationUncertain;
      && Safe(Fail(w', error).history.log) && Explained(Fail(w', error).history.log)
      && Installed(p, info, FactsOf(Fail(w', error)), error)
  {
    hide Grown, Observe, Safe, Commit, CandidateFor, Explained, Explains, Stored, Installed, Fail;
    CommitAt(env, w, f, f.previous.value);
    var (restored, w') := Commit(env, w, f.previous.value);
    assert f.tables + [f.previous.value] == [CandidateFor(p, info), f.previous.value];
    RestoreCloses(w', p, info, FactsOf(w'), if restored then ActivationError else ActivationUncertain);
  }

  /** Ending a session after the previous table was written again. */
  lemma RestoreCloses(w: World, p: Params, info: ImageInfo, f: Facts, error: Error)
    requires At(w, f) && f.previous.Some? && TokenConsumed(p, info, f.(tables := []))
    requires f.tables == [CandidateFor(p, info), f.previous.value]
    requires error == if Stored(w.history.log, f.previous.value) then ActivationError else ActivationUncertain
    requires error == ActivationError ==> f.primary == f.backup == f.previous
    ensures var w' := Fail(w, error);
      Safe(w'.history.log) && Explained(w'.history.log) && Installed(p, info, FactsOf(w'), error)
  {
    hide Grown, Observe, Safe, CandidateFor, Explained, Stored;
    ClosedAt(w, f, error);
    LogIsThere(w, f);
    OpenIsExplained(w.history.log);
  }

  lemma InstallFrom(env: Env, w3: World, info: ImageInfo, f2: Facts)
    requires At(w3, f2) && TokenConsumed(w3.session.params, info, f2) && f2.previous.Some?
    requires Candidate(w3.session) == CandidateFor(w3.session.params, info)
    ensures var (verified, w4) := Commit(env, w3, Candidate(w3.session));
      && (verified ==>
            && Safe(w4.history.log) && Explained(w4.history.log)
            && Installed(w3.session.params, info, FactsOf(w4), Ok))
      && (!verified ==>
            var (restored, w5) := Commit(env, w4, f2.previous.value);
            var error := if restored then ActivationError else ActivationUncertain;
            && Safe(Fail(w5, error).history.log) && Explained(Fail(w5, error).history.log)
            && Installed(w3.session.params, info, FactsOf(Fail(w5, error)), error))
  {
    hide Observe, Safe, Commit, CandidateFor, Candidate, Explained, Fail;
    var candidate := Candidate(w3.session);
    CommitAt(env, w3, f2, candidate);
    var (verified, w4) := Commit(env, w3, candidate);
    assert [] + [candidate] == [candidate];
    if verified {
      OpenIsExplained(w4.history.log);
    } else {
      RestoreFrom(env, w4, w3.session.params, info, FactsOf(w4));
    }
  }

  lemma ActivateKeeps(env: Env, w: World, generation: uint32, sha256: Option<seq<byte>>)
    requires Inv(w)
    ensures var w' := Activate(env, w, generation, sha256).world; Inv(w') && Handed(w, w')
  {
    hide Safe, Progress, Observe, Tokens, Install, Explained, Installed;
    if Accepted(w, generation, sha256) {
      ActivationOutcomes(env, w, generation, sha256);
      var r := Activate(env, w, generation, sha256);
      InstalledKeeps(w, r);
    }
  }

  /** The token checks of Activate. */
  predicate Accepted(w: World, generation: uint32, sha256: Option<seq<byte>>) {
    w.session.state == Ready && generation != 0 && generation == w.session.ready.sessionGeneration
    && sha256 == Some(w.session.ready.sha256)
  }

  /**
   * Activation outcomes: Ok means both persisted copies were read back as the boot table of the staged image;
   * ActivationError means no table was written, or both copies were read back as the table found before;
   * anything else is ActivationUncertain. At most one candidate and one restored table are ever written.
   */
  lemma ActivationOutcomes(env: Env, w: World, generation: uint32, sha256: Option<seq<byte>>)
    requires Inv(w) && Accepted(w, generation, sha256)
    ensures var r := Activate(env, w, generation, sha256);
      && Safe(r.world.history.log) && Explained(r.world.history.log)
      && Installed(w.session.params, w.session.ready, FactsOf(r.world), r.error)
      && SameSession(w, r.world)
      && r.world.session.state == (if r.error == Ok then Activated else Failed)
      && r.world.session.ready.sessionGeneration == 0
  {
    hide Safe, Progress, Observe, Tokens, Install, Explained, Installed, CandidateFor;
    var info := w.session.ready;
    var w1 := NoteIn(w, Consumed(generation, sha256.value)).(session := w.session.(
      state := Activating, ready := info.(sessionGeneration := 0)));
    ConsumedAt(w, generation, sha256.value);
    assert Candidate(w1.session) == CandidateFor(w1.session.params, info) by { SameCandidate(w1.session, info); }
    InstallAt(env, w1, info, FactsOf(w1));
  }

  lemma SameCandidate(s: Session, info: ImageInfo)
    requires info.payloadSize == s.payloadSize && info.crc16 == s.ready.crc16
    ensures Candidate(s) == CandidateFor(s.params, info)
  {
  }

  lemma ConsumedAt(w: World, generation: uint32, sha256: seq<byte>)
    requires Inv(w) && w.session.state == Ready && generation == w.session.ready.sessionGeneration
    requires sha256 == w.session.ready.sha256
    ensures var w1 := NoteIn(w, Consumed(generation, sha256));
      && At(w1, FactsOf(w).(consumed := true, live := false))
      && TokenConsumed(w.session.params, w.session.ready, FactsOf(w1)) && FactsOf(w1).previous.None?
  {
    hide Safe, Progress, Observe, Tokens;
    NothingLogged();
    Noted(w, FactsOf(w), Consumed(generation, sha256));
  }

  lemma InstalledKeeps(w: World, r: Outcome)
    requires Inv(w) && w.session.state == Ready && SameSession(w, r.world)
    requires Safe(r.world.history.log) && Explained(r.world.history.log)
    requires Installed(w.session.params, w.session.ready, FactsOf(r.world), r.error)
    requires r.world.session.state == (if r.error == Ok then Activated else Failed)
    requires r.world.session.ready.sessionGeneration == 0
    ensures Inv(r.world) && Handed(w, r.world)
  {
    hide Safe, Progress, Observe, Tokens, CandidateFor, Explained;
    NothingLogged();
    TokensKept(w, r.world);
  }

  lemma AbortKeeps(w: World)
    requires Inv(w)
    ensures Inv(Abort(w).world) && Handed(w, Abort(w).world)
  {
    hide Safe, Progress, Observe, Tokens, Explained;
    if w.session.state == Receiving || w.session.state == Ready {
      if w.session.state == Receiving {
        ProgressIsCalm(w);
      }
      NothingLogged();
      Noted(w, FactsOf(w), Aborted);
      AbortIsExplained(w.history.log);
      TokensKept(w, Abort(w).world);
    }
  }

  // ----- runs

  datatype Call =
    | CallBegin(size: nat, key: Option<seq<byte>>, hasAdmission: bool, hasCancellation: bool)
    | CallWritePackage(buffer: Buffer)
    | CallFinish(wanted: bool)
    | CallActivate(generation: uint32, sha256: Option<seq<byte>>)
    | CallAbort

  function Step(env: Env, w: World, call: Call): Outcome
    requires w.session.state == Receiving ==> Sane(w.session, 0)
  {
    match call
    case CallBegin(size, key, hasAdmission, hasCancellation) => Begin(env, w, size, key, hasAdmission, hasCancellation)
    case CallWritePackage(buffer) => WritePackage(env, w, buffer)
    case CallFinish(wanted) => Finish(env, w, wanted)
    case CallActivate(generation, sha256) => Activate(env, w, generation, sha256)
    case CallAbort => Abort(w)
  }

  lemma StepKeeps(env: Env, w: World, call: Call)
    requires Inv(w)
    ensures w.session.state == Receiving ==> Sane(w.session, 0)
    ensures Inv(Step(env, w, call).world) && Handed(w, Step(env, w, call).world)
  {
    hide Inv, Handed, Begin, WritePackage, Finish, Activate, Abort, Sane;
    WritePackageKeeps(env, w, Null(0));
    match call
    case CallBegin(size, key, hasAdmission, hasCancellation) =>
      BeginKeeps(env, w, size, key, hasAdmission, hasCancellation);
    case CallWritePackage(buffer) => WritePackageKeeps(env, w, buffer);
    case CallFinish(wanted) => FinishKeeps(env, w, wanted);
    case CallActivate(generation, sha256) => ActivateKeeps(env, w, generation, sha256);
    case CallAbort => AbortKeeps(w);
  }

  /** The world after a sequence of calls. */
  function Run(env: Env, w: World, calls: seq<Call>): (r: World)
    requires Inv(w)
    ensures Inv(r)
    decreases |calls|
  {
    hide Inv, Handed, Step;
    if calls == [] then w
    else
      StepKeeps(env, w, calls[0]);
      Run(env, Step(env, w, calls[0]).world, calls[1..])
  }

  lemma InitialInv()
    ensures Inv(InitialWorld())
  {
  }
}
