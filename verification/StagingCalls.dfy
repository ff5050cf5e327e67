/** What each call asks first, and which answer it gives. */
module StagingCalls {
  import opened Bytes
  import opened StagingTypes
  import opened PackageHeader
  import opened StagingModel
  import opened StagingLog
  import opened StagingInvariant
  import opened StagingRuns
  import opened StagingTheorems
  import Crc16
  import PublicKey
  import Sha256

  // ----- the wrong state

  /** The states in which a call does its work. */
  predicate Applicable(call: Call, state: State) {
    match call
    case CallBegin(_, _, _, _) => state !in {Receiving, Verifying, Activating}
    case CallWritePackage(_) => state == Receiving
    case CallFinish(_) => state == Receiving
    case CallActivate(_, _) => state == StagingTypes.Ready
    case CallAbort => state in {Receiving, Verifying, StagingTypes.Ready}
  }

  /** In any other state a call is refused and changes nothing. */
  lemma WrongStateIsRefused(env: Env, w: World, call: Call)
    requires Inv(w) && !Applicable(call, w.session.state)
    ensures w.session.state == Receiving ==> Sane(w.session, 0)
    ensures Step(env, w, call) == Outcome(if call.CallBegin? then Busy else InvalidState, w)
  {
    hide Inv, Handed, Sane, TakeChunk, Verify, Install;
    StepKeeps(env, w, call);
  }

  // ----- why Begin refuses

  /** Both partitions are there and not empty; the OTA partition is looked up second. */
  predicate PartitionsUsable(env: Env, w: World) {
    var application := env.application(w.history);
    && application.Some? && application.value.length != 0
    && var ota := env.ota(LookedUp(w.history, application));
    ota.Some? && ota.value.length != 0
  }

  /** Each answer of Begin, exactly; a refusal leaves everything but the record of lookups as it was. */
  lemma BeginAnswers(env: Env, w: World, size: nat, key: Option<seq<byte>>, hasAdmission: bool, hasCancellation: bool)
    ensures var r := Begin(env, w, size, key, hasAdmission, hasCancellation);
      var idle := w.session.state !in {Receiving, Verifying, Activating};
      var keyed := idle && key.Some? && PublicKey.IsKeyInfo(key.value);
      var sized := keyed && 385 <= size < 0x1_0000_0000;
      && (r.error == Busy <==> !idle)
      && (r.error == KeyFormat <==> idle && !keyed)
      && (r.error == PackageSize <==> keyed && !sized)
      && (r.error == PartitionError <==> sized && !PartitionsUsable(env, w))
      && (r.error == Ok <==> sized && PartitionsUsable(env, w))
      && (r.error != Ok ==> r.world == w.(history := w.history.(lookups := r.world.history.lookups)))
      && (r.error != Ok && r.error != PartitionError ==> r.world == w)
  {
    hide PublicKey.IsKeyInfo, ValidPublicKey;
    PublicKey.KeyForm(key);
    assert ValidPublicKey(key) ==> key.Some?;
  }

  // ----- missing arguments and wrong sizes

  /** The session is closed with `error`, right after the events `first`. */
  predicate EndsWith(w: World, first: seq<Event>, error: Error, r: Outcome) {
    && r.error == error && ClosedWith(r.world, error)
    && r.world.history.log == w.history.log + first + [Closed(error)]
  }

  /** A null buffer with a size, a null result, a chunk that is too long and a package that is too short. */
  lemma MisuseIsRefused(env: Env, w: World, size: nat, data: seq<byte>)
    requires Inv(w) && w.session.state == Receiving
    ensures Sane(w.session, 0)
    ensures size > 0 ==> EndsWith(w, [NullArgument], InvalidArgument, WritePackage(env, w, Null(size)))
    ensures EndsWith(w, [NullArgument], InvalidArgument, Finish(env, w, false))
    ensures |FactsOf(w).received| + |data| > w.session.params.packageSize ==>
      EndsWith(w, [Refused(|data|)], TrailingData, WritePackage(env, w, Bytes(data)))
    ensures |FactsOf(w).received| < w.session.params.packageSize ==>
      EndsWith(w, [], Incomplete, Finish(env, w, true))
  {
    hide Observe, Safe, Progress, Tokens, Explained, TakeChunk, Verify, Poll, Sane, EndsWith, Grown;
    ReceivedCount(w);
    WritePackageKeeps(env, w, Null(0));
    FailingEnds(w, [NullArgument], InvalidArgument);
    FailingEnds(w, [Refused(|data|)], TrailingData);
    FailingEnds(w, [], Incomplete);
  }

  lemma FailingEnds(w: World, first: seq<Event>, error: Error)
    requires |first| <= 1
    ensures var noted := if first == [] then w else NoteIn(w, first[0]);
      EndsWith(w, first, error, Outcome(error, Fail(noted, error)))
  {
    hide Grown;
    assert first == [] ==> w.history.log + first == w.history.log;
    assert first != [] ==> first == [first[0]];
  }

  /** A buffer without bytes is an empty chunk, whether there is a pointer or not. */
  lemma EmptyBuffers(env: Env, w: World)
    requires Inv(w)
    ensures w.session.state == Receiving ==> Sane(w.session, 0)
    ensures WritePackage(env, w, Null(0)) == WritePackage(env, w, Bytes([]))
  {
    hide Inv, Handed, Sane, TakeChunk;
    WritePackageKeeps(env, w, Null(0));
  }

  // ----- the first question

  /** After `first` the callback is asked, and a yes ends the session at once. */
  predicate Asked(w: World, first: seq<Event>, answer: bool, r: Outcome) {
    && w.history.log + first + [Polled(answer)] <= r.world.history.log
    && (answer ==> EndsWith(w, first + [Polled(true)], CancelledError, r))
  }

  lemma ChunkAsks(env: Env, w: World, data: seq<byte>)
    requires Sane(w.session, |data|) && w.session.params.hasCancellation
    ensures Asked(w, [], env.cancels(w.history), TakeChunk(env, w, data))
  {
    hide Receive, Sane;
    assert w.history.log + [] == w.history.log;
    var w1 := Poll(env, w).1;
    var step := Receive(env, w1, data);
    assert [] + [Polled(true)] == [Polled(true)];
  }

  /** WritePackage notes the chunk, the empty one included, and asks about cancellation before anything else. */
  lemma WriteAsksFirst(env: Env, w: World, data: seq<byte>)
    requires Inv(w) && w.session.state == Receiving && w.session.params.hasCancellation
    requires |FactsOf(w).received| + |data| <= w.session.params.packageSize
    ensures Sane(w.session, 0)
    ensures Asked(w, [Offered(data)], env.cancels(Note(w.history, Offered(data))), WritePackage(env, w, Bytes(data)))
  {
    hide Observe, Safe, Progress, Tokens, Explained, TakeChunk, Sane;
    ReceivedCount(w);
    TakeChunkKeeps(env, w, data);
    WritePackageKeeps(env, w, Null(0));
    var w1 := NoteIn(w, Offered(data));
    ChunkAsks(env, w1, data);
    assert w.history.log + [Offered(data)] + [] == w.history.log + [Offered(data)];
    assert w.history.log + ([Offered(data)] + [Polled(true)]) == w1.history.log + ([] + [Polled(true)]);
  }

  /** Finish of a complete package asks about cancellation before anything else. */
  lemma FinishAsksFirst(env: Env, w: World)
    requires Inv(w) && w.session.state == Receiving && w.session.params.hasCancellation
    requires |FactsOf(w).received| == w.session.params.packageSize
    ensures Asked(w, [], env.cancels(w.history), Finish(env, w, true))
  {
    hide Observe, Safe, Progress, Tokens, Explained, Verify;
    PackageIsComplete(w, FactsOf(w).received);
    assert w.history.log + [] == w.history.log && [] + [Polled(true)] == [Polled(true)];
    var w1 := Poll(env, w).1;
    var w2 := w1.(session := w1.session.(state := Verifying));
    VerifyGrows(env, w2);
  }

  lemma PackageIsComplete(w: World, r: seq<byte>)
    requires Progress(w, r) && |r| == w.session.params.packageSize
    ensures Complete(w)
  {
    hide Safe, Observe, Authorised, ImageStartChecked, Decode, PayloadSize, Crc16.Crc;
    var f := FactsOf(w);
    AuthorisedSize(f);
    assert HeaderOf(r) == HeaderOf(f.received);
  }

  lemma VerifyGrows(env: Env, w: World)
    ensures Grown(w.history, Verify(env, w).world.history)
  {
    hide ReadFrom, Judge, Sha256.Digest, Crc16.Crc;
  }

  /** Between the signature check and the first payload bytes the callback was asked once more. */
  lemma AskedAfterSignature(w: World)
    requires Inv(w) && w.session.state == Receiving && w.session.params.hasCancellation
    requires PAYLOAD_OFFSET <= |FactsOf(w).received| < PAYLOAD_OFFSET + VECTOR_SIZE
    ensures exists j, k :: 0 <= j < k < |w.history.log| && w.history.log[j].Verified? && w.history.log[k].Polled?
  {
    hide Observe, Safe, Tokens, Explained, Authorised, ImageStartChecked, SessionOf;
    var log, f := w.history.log, FactsOf(w);
    assert f.verified.Some? by { WasVerified(f); }
    VerifiedWasLogged(log);
    var c := f.verified.value;
    var j :| 0 <= j < |log| && log[j] == Verified(c.key, c.digest, c.signature, 0);
    PolledSince(log, j);
  }

  lemma WasVerified(f: Facts)
    requires Authorised(f)
    ensures f.verified.Some?
  {
    hide HeaderChecked, Sha256.Digest, Decode;
  }

  // ----- activation needs the generation and the digest

  lemma {:induction false} IssuedDigest(log: seq<Event>)
    requires Safe(log)
    ensures var f := Observe(log); f.issued.Some? ==> f.issued.value.sha256 == Sha256.Digest(f.readBack)
  {
    hide Learn, Allowed, Sha256.Digest;
    if log != [] {
      var front, last := log[..|log| - 1], log[|log| - 1];
      IssuedDigest(front);
      DigestStep(Observe(front), last);
    }
  }

  lemma DigestStep(f: Facts, e: Event)
    requires Allowed(f, e) && (f.issued.Some? ==> f.issued.value.sha256 == Sha256.Digest(f.readBack))
    ensures var g := Learn(f, e); g.issued.Some? ==> g.issued.value.sha256 == Sha256.Digest(g.readBack)
  {
    hide ImageStartChecked, HeaderChecked, Decode, Sha256.Digest, Crc16.Crc, CandidateFor, SizeOf;
  }

  /** The caller holds the token: the generation handed out, and the digest of the bytes that were read back. */
  predicate Entitled(w: World, generation: uint32, sha256: Option<seq<byte>>) {
    hide Observe, Sha256.Digest;
    && w.session.state == StagingTypes.Ready
    && var f := FactsOf(w);
    && f.issued.Some? && f.live && generation == f.issued.value.sessionGeneration != 0
    && sha256 == Some(Sha256.Digest(f.readBack))
  }

  /** Without both Activate is refused and changes nothing; with both the token is used up. */
  lemma ActivationNeedsToken(env: Env, w: World, generation: uint32, sha256: Option<seq<byte>>)
    requires Inv(w)
    ensures var r := Activate(env, w, generation, sha256);
      && (w.session.state != StagingTypes.Ready ==> r == Outcome(InvalidState, w))
      && (w.session.state == StagingTypes.Ready && !Entitled(w, generation, sha256) ==>
            r == Outcome(InvalidArgument, w))
      && (Entitled(w, generation, sha256) ==>
            && r.error in {Ok, ActivationError, ActivationUncertain}
            && w.history.log + [Consumed(generation, sha256.value)] <= r.world.history.log)
  {
    hide Observe, Safe, Progress, Tokens, Explained, Install, Installed, Sha256.Digest;
    if w.session.state == StagingTypes.Ready {
      IssuedDigest(w.history.log);
      if Accepted(w, generation, sha256) {
        ActivationOutcomes(env, w, generation, sha256);
        OutcomeOf(w.session.params, w.session.ready, FactsOf(Activate(env, w, generation, sha256).world),
                  Activate(env, w, generation, sha256).error);
      }
    }
  }

  lemma OutcomeOf(p: Params, info: ImageInfo, g: Facts, error: Error)
    requires Installed(p, info, g, error)
    ensures error in {Ok, ActivationError, ActivationUncertain}
  {
    hide CandidateFor;
  }

  // ----- the status after a success

  /** A call that succeeds leaves no error behind, except that an aborted session counts as cancelled. */
  lemma SuccessIsReported(env: Env, w: World, call: Call)
    requires Inv(w)
    ensures w.session.state == Receiving ==> Sane(w.session, 0)
    ensures var r := Step(env, w, call);
      r.error == Ok ==>
        && r.world.session.lastError == (if call.CallAbort? then CancelledError else Ok)
        && r.world.session.state == (match call
            case CallBegin(_, _, _, _) => Receiving
            case CallWritePackage(_) => Receiving
            case CallFinish(_) => StagingTypes.Ready
            case CallActivate(_, _) => Activated
            case CallAbort => Cancelled)
  {
    hide Inv, Handed, Sane, WritePackage, Finish, Install;
    StepKeeps(env, w, call);
    match call
    case CallWritePackage(buffer) => WriteStays(env, w, buffer);
    case CallFinish(wanted) => FinishReports(env, w, wanted);
    case CallActivate(generation, sha256) =>
      var digest := if sha256.Some? then sha256.value else [];
      InstallReports(env, NoteIn(w, Consumed(generation, digest)).(session := w.session.(
        state := Activating, ready := w.session.ready.(sessionGeneration := 0))));
    case _ =>
  }

  lemma WriteStays(env: Env, w: World, buffer: Buffer)
    requires Inv(w)
    ensures w.session.state == Receiving ==> Sane(w.session, 0)
    ensures var r := WritePackage(env, w, buffer);
      r.error == Ok ==> r.world.session.state == Receiving && r.world.session.lastError == Ok
  {
    hide Observe, Safe, Progress, Tokens, Explained, TakeChunk, Sane;
    WritePackageKeeps(env, w, buffer);
    if w.session.state == Receiving && !(buffer.Null? && buffer.size > 0) {
      var data := if buffer.Null? then [] else buffer.data;
      if |data| <= w.session.params.packageSize - w.session.packageReceived {
        TakeChunkKeeps(env, w, data);
        var r := TakeChunk(env, NoteIn(w, Offered(data)), data);
        if r.error == Ok {
          NoErrorYet(r.world);
        }
      }
    }
  }

  lemma NoErrorYet(w: World)
    requires Inv(w) && w.session.state == Receiving
    ensures w.session.lastError == Ok
  {
    hide Observe, Safe, Tokens, Explained, Authorised, ImageStartChecked, Decode, PayloadSize, Crc16.Crc;
  }

  lemma FinishReports(env: Env, w: World, wanted: bool)
    ensures var r := Finish(env, w, wanted);
      r.error == Ok ==> r.world.session.state == StagingTypes.Ready && r.world.session.lastError == Ok
  {
    hide ReadFrom, Judge, Poll, Sha256.Digest, Crc16.Crc;
  }

  lemma InstallReports(env: Env, w: World)
    ensures var r := Install(env, w);
      r.error == Ok ==> r.world.session.state == Activated && r.world.session.lastError == Ok
  {
    hide Late, Commit, Candidate;
  }

  // ----- the counter of verified bytes

  lemma {:induction false} AllVerified(env: Env, w: World, offset: nat, bytes: seq<byte>, descriptor: seq<byte>)
    requires |descriptor| == DESCRIPTOR_SIZE && w.session.payloadVerified == offset <= w.session.payloadSize
    ensures var r := ReadFrom(env, w, offset, bytes, descriptor);
      && w.session.payloadVerified <= r.outcome.world.session.payloadVerified <= w.session.payloadSize
      && (r.outcome.error == Ok ==> r.outcome.world.session.payloadVerified == w.session.payloadSize)
    decreases w.session.payloadSize - offset
  {
    hide ReadBlock, CopyDescriptor, Poll;
    if offset < w.session.payloadSize {
      var step := ReadNext(env, w, offset, bytes, descriptor);
      if step.outcome.error == Ok {
        AllVerified(env, step.outcome.world, offset + ReadSize(w.session, offset), step.bytes, step.descriptor);
      }
    }
  }

  /** A Finish that gets as far as comparing, as every successful one does, has counted every payload byte. */
  lemma FinishCounts(env: Env, w: World, wanted: bool)
    requires Inv(w) && w.session.state == Receiving
    ensures var r := Finish(env, w, wanted);
      && r.world.session.payloadVerified <= w.session.payloadSize
      && (r.error in {Ok, ReadBackHashMismatch, ReadBackCrcMismatch, DescriptorMismatch} ==>
            r.world.session.payloadVerified == w.session.payloadSize)
  {
    hide Observe, Safe, Tokens, Explained, Verify, Poll, Progress;
    NothingVerified(w);
    var w1 := Poll(env, w).1;
    VerifyCounts(env, w1.(session := w1.session.(state := Verifying)));
  }

  lemma NothingVerified(w: World)
    requires Inv(w) && w.session.state == Receiving
    ensures w.session.payloadVerified == 0
  {
    hide Observe, Safe, Tokens, Explained, Authorised, ImageStartChecked, Decode, PayloadSize, Crc16.Crc;
  }

  lemma VerifyCounts(env: Env, w: World)
    requires w.session.payloadVerified == 0
    ensures var r := Verify(env, w);
      && r.error != Incomplete && r.error != InvalidArgument && r.error != InvalidState
      && r.world.session.payloadVerified <= w.session.payloadSize
      && (r.error in {Ok, ReadBackHashMismatch, ReadBackCrcMismatch, DescriptorMismatch} ==>
            r.world.session.payloadVerified == w.session.payloadSize)
  {
    hide ReadFrom, Sha256.Digest, Crc16.Crc, Issue;
    AllVerified(env, w, 0, [], Zeros(256));
    ReadErrors(env, w, 0, [], Zeros(256));
    var image := ReadFrom(env, w, 0, [], Zeros(256));
    IssueCounts(image.outcome.world, Crc16.Crc(Crc16.ZERO, image.bytes), Sha256.Digest(image.bytes));
  }

  lemma IssueCounts(w: World, crc: Crc16.Word, digest: seq<byte>)
    ensures Issue(w, crc, digest).session.payloadVerified == w.session.payloadVerified
  {
  }

  lemma ReadNextErrors(env: Env, w: World, offset: nat, bytes: seq<byte>, descriptor: seq<byte>)
    requires |descriptor| == DESCRIPTOR_SIZE && offset < w.session.payloadSize
    ensures ReadNext(env, w, offset, bytes, descriptor).outcome.error
      in {Ok, CancelledError, ReadBackError, ReadBackTimeout}
  {
    hide CopyDescriptor, Poll, Delivered, Late, Grown;
  }

  lemma {:induction false} ReadErrors(env: Env, w: World, offset: nat, bytes: seq<byte>, descriptor: seq<byte>)
    requires |descriptor| == DESCRIPTOR_SIZE
    ensures ReadFrom(env, w, offset, bytes, descriptor).outcome.error
      in {Ok, CancelledError, ReadBackError, ReadBackTimeout}
    decreases w.session.payloadSize - offset
  {
    hide ReadNext, Grown;
    if offset < w.session.payloadSize {
      var step := ReadNext(env, w, offset, bytes, descriptor);
      ReadNextErrors(env, w, offset, bytes, descriptor);
      if step.outcome.error == Ok {
        ReadErrors(env, step.outcome.world, offset + ReadSize(w.session, offset), step.bytes, step.descriptor);
      }
    }
  }
}
