/** What every run of the staging engine guarantees. */
module StagingTheorems {
  import opened Bytes
  import opened StagingTypes
  import opened PackageHeader
  import opened StagingModel
  import opened StagingLog
  import opened StagingInvariant
  import opened StagingRuns
  import opened StagingActivation
  import opened StagingTime
  import opened NorFlash
  import Crc16
  import Sha256

  /** In every run, every session obeys the rules and the time limits, and no call returns in a transient state. */
  lemma EveryRunIsSafe(env: Env, calls: seq<Call>)
    ensures Inv(InitialWorld())
    ensures var w := Run(env, InitialWorld(), calls);
      && SafeHistory(w.history) && TimelyHistory(w.history)
      && w.session.state != Verifying && w.session.state != Activating
      && (FactsOf(w).cancelled ==> w.session.state == Cancelled)
  {
    hide Observe, Safe, Run, InitialWorld, TimelyHistory;
    InitialInv();
    InitiallyTimely();
    RunKept(env, InitialWorld(), calls);
  }

  /** A log of this history, of the current session or of an earlier one. */
  predicate LogOf(h: History, log: seq<Event>) { log == h.log || log in h.past }

  /** In every run, every session that ended with an error has the reason for exactly that error in its log. */
  lemma EveryFailureIsExplained(env: Env, calls: seq<Call>, log: seq<Event>, i: nat)
    requires LogOf(Run(env, InitialWorld(), calls).history, log) && i < |log| && log[i].Closed?
    ensures Explains(log[..i], log[i].error)
  {
    hide Observe, Safe, Run, InitialWorld, Explains, TimelyHistory;
    EveryRunIsSafe(env, calls);
  }

  /** The session was closed with this error, and holds no token. */
  predicate ClosedWith(w: World, error: Error) {
    && w.session.lastError == error && w.session.state == (if error == CancelledError then Cancelled else Failed)
    && w.session.ready.sessionGeneration == 0
    && w.history.log != [] && w.history.log[|w.history.log| - 1] == Closed(error)
  }

  predicate ExplainedAtEnd(log: seq<Event>, error: Error) { log != [] && Explains(log[..|log| - 1], error) }

  lemma FinishCloses(env: Env, w: World, wanted: bool)
    requires Finish(env, w, wanted).error != Ok
    ensures var r := Finish(env, w, wanted); r.world == w || ClosedWith(r.world, r.error)
  {
    hide Poll, Verify, Fail, ClosedWith;
    FailCloses(NoteIn(w, NullArgument), InvalidArgument);
    FailCloses(w, Incomplete);
    var w1 := Poll(env, w).1;
    FailCloses(w1, CancelledError);
    VerifyCloses(env, w1.(session := w1.session.(state := Verifying)));
  }

  lemma VerifyCloses(env: Env, w: World)
    ensures var r := Verify(env, w); r.error != Ok ==> ClosedWith(r.world, r.error)
  {
    hide ReadFrom, Judge, Issue, Sha256.Digest, Crc16.Crc, Fail, ClosedWith;
    FailCloses(w, HashMismatch);
    var image := ReadFrom(env, w, 0, [], Zeros(256));
    var w1 := image.outcome.world;
    FailCloses(w1, image.outcome.error);
    FailCloses(w1, Judge(w1.session, image.bytes, image.descriptor));
  }

  lemma ActivateCloses(env: Env, w: World, generation: uint32, sha256: Option<seq<byte>>)
    requires Activate(env, w, generation, sha256).error != Ok
    ensures var r := Activate(env, w, generation, sha256); r.world == w || ClosedWith(r.world, r.error)
  {
    hide Late, Commit, Candidate;
  }

  lemma FailCloses(w: World, error: Error)
    ensures ClosedWith(Fail(w, error), error)
  {
  }

  lemma WriteCloses(env: Env, w: World, buffer: Buffer)
    requires w.session.state == Receiving ==> Sane(w.session, 0)
    requires WritePackage(env, w, buffer).error != Ok
    ensures var r := WritePackage(env, w, buffer); r.world == w || ClosedWith(r.world, r.error)
  {
    hide TakeChunk, Sane, Fail, ClosedWith;
    FailCloses(NoteIn(w, NullArgument), InvalidArgument);
    if w.session.state == Receiving && !(buffer.Null? && buffer.size > 0) {
      var data := if buffer.Null? then [] else buffer.data;
      if |data| <= w.session.params.packageSize - w.session.packageReceived {
        OfferIsSane(w, data);
        ChunkCloses(env, NoteIn(w, Offered(data)), data);
      } else {
        FailCloses(NoteIn(w, Refused(|data|)), TrailingData);
      }
    }
  }

  lemma OfferIsSane(w: World, data: seq<byte>)
    requires Sane(w.session, 0) && |data| <= w.session.params.packageSize - w.session.packageReceived
    ensures Sane(NoteIn(w, Offered(data)).session, |data|)
  {
  }

  lemma ChunkCloses(env: Env, w: World, data: seq<byte>)
    requires Sane(w.session, |data|) && TakeChunk(env, w, data).error != Ok
    ensures var r := TakeChunk(env, w, data); ClosedWith(r.world, r.error)
  {
    hide Poll, Receive, Sane, Fail, ClosedWith;
    var w1 := Poll(env, w).1;
    FailCloses(w1, CancelledError);
    var step := Receive(env, w1, data);
    FailCloses(step.world, step.error);
  }

  /**
   * A call that returns an error either leaves everything as it was, or closes the session with that very error,
   * and the log has the reason for it.
   */
  lemma FailureIsReported(env: Env, w: World, call: Call)
    requires Inv(w) && Step(env, w, call).error != Ok
    ensures var r := Step(env, w, call);
      || OnlyLookups(w, r.world)
      || (ClosedWith(r.world, r.error) && ExplainedAtEnd(r.world.history.log, r.error))
  {
    hide Observe, Safe, Explains, Inv, Handed, WritePackage, Finish, Activate, Receive, ValidPublicKey, Sane;
    StepKeeps(env, w, call);
    InvIsSafe(Step(env, w, call).world);
    match call
    case CallWritePackage(buffer) => WriteCloses(env, w, buffer);
    case CallFinish(wanted) => FinishCloses(env, w, wanted);
    case CallActivate(generation, sha256) => ActivateCloses(env, w, generation, sha256);
    case _ =>
  }

  /** Nothing has changed, except that the platform may have been asked for a partition. */
  predicate OnlyLookups(w: World, w': World) {
    w' == w.(history := w.history.(lookups := w'.history.lookups)) && w.history.lookups <= w'.history.lookups
  }

  /** Begin is the only way out of a session that failed, was cancelled or was activated. */
  lemma TerminalStatesStay(env: Env, w: World, call: Call)
    requires w.session.state in {Failed, Cancelled, Activated}
    ensures var r := Step(env, w, call);
      && (!call.CallBegin? ==> r == Outcome(InvalidState, w))
      && (r.error != Ok ==> OnlyLookups(w, r.world))
      && (r.error == Ok ==> r.world.session.state == Receiving)
  {
    hide Receive, Verify, Install;
  }

  // ----- vectors

  /** An accepted vector table: stack in RAM, reset handler inside the image, all without 32-bit wrap-around. */
  lemma VectorsMeaning(p: Params, size: uint32, v: Vectors)
    ensures VectorError(p, size, v) == Ok <==>
      && var stack, reset := Le32(v[..4]), Le32(v[4..8]);
      && stack % 8 == 0 && 0x2000_01C4 < stack <= 0x2004_0000
      && reset % 2 == 1
      && p.application.start <= reset - 1 && reset + 1 <= p.application.start + size <= UINT32_MAX
  {
    hide Le32;
  }

  // ----- finish

  /**
   * Finish soundness: a token is handed out only when the bytes received are header, signature and payload, the
   * payload streamed and the payload read back both have the authenticated digest and equal checksums, and the
   * descriptor read back is the authenticated one; and, where the time limits were kept so far, as they are in every
   * run, every operation of the session was in time.
   */
  lemma FinishSound(env: Env, w: World, wanted: bool)
    requires Inv(w) && Finish(env, w, wanted).error == Ok
    ensures var w' := Finish(env, w, wanted).world;
      && w'.session.state == Ready && Vouched(w'.history.log, w'.session.ready)
      && (TimelyHistory(w.history) ==> VouchedInTime(w'.history.log))
  {
    hide Inv, Finish, Observe, Safe, Staged, HeaderOf, SignatureOf, TimelyHistory, OnTime, Punctual, AllInTime;
    FinishKeeps(env, w, wanted);
    FinishShape(env, w, wanted);
    var w' := Finish(env, w, wanted).world;
    InvIsSafe(w');
    var log := w'.history.log;
    if TimelyHistory(w.history) {
      FinishedInTime(env, w, wanted);
    }
    TokensAreSound(log, |log| - 1);
    PackageIsWhole(Observe(log[..|log| - 1]), w'.session.ready);
  }

  /** The log ends with a token for a staged image, and the bytes received are header, signature and payload. */
  predicate Vouched(log: seq<Event>, info: ImageInfo) {
    hide Observe, Staged, HeaderOf, SignatureOf;
    && log != [] && log[|log| - 1] == Issued(info)
    && var f := Observe(log[..|log| - 1]);
    && Staged(f, info)
    && |f.received| >= PAYLOAD_OFFSET
    && f.received == HeaderOf(f.received) + SignatureOf(f.received) + f.written
  }

  predicate VouchedInTime(log: seq<Event>) {
    hide AllInTime;
    log != [] && AllInTime(log, |log| - 1)
  }

  lemma FinishedInTime(env: Env, w: World, wanted: bool)
    requires TimelyHistory(w.history)
    ensures Punctual(Finish(env, w, wanted).world.history.log)
  {
    hide OnTime, Punctual, Finish;
    FinishKept(env, w, wanted);
    IsPunctual(Finish(env, w, wanted).world.history.log);
  }

  lemma InvIsSafe(w: World)
    requires Inv(w)
    ensures Safe(w.history.log) && Explained(w.history.log)
  {
    hide Observe, Safe, Progress, Tokens, HoldsToken;
  }

  lemma FinishShape(env: Env, w: World, wanted: bool)
    requires Finish(env, w, wanted).error == Ok
    ensures var w' := Finish(env, w, wanted).world;
      && w'.session.state == Ready
      && w'.history.log != [] && w'.history.log[|w'.history.log| - 1] == Issued(w'.session.ready)
  {
    hide ReadFrom, Judge, Sha256.Digest, Crc16.Crc, Poll;
  }

  /** Two different strings of the same length with the same digest and the same checksum. */
  predicate Collide(a: seq<byte>, b: seq<byte>) {
    hide Sha256.Digest, Crc16.Crc;
    a != b && |a| == |b| && Sha256.Digest(a) == Sha256.Digest(b) && Crc16.Crc(Crc16.ZERO, a) == Crc16.Crc(Crc16.ZERO, b)
  }

  /** The bytes read back start with a vector table that points into the image. */
  predicate ReadBackPoints(f: Facts, info: ImageInfo) {
    hide VectorError;
    f.params.Some? && |f.readBack| >= VECTOR_SIZE
    && VectorError(f.params.value, info.payloadSize, f.readBack[..8]) == Ok
  }

  /** The vector table read back is valid too, unless the flash delivered a second string with the same digest. */
  lemma VectorsReadBack(f: Facts, info: ImageInfo)
    requires Staged(f, info)
    ensures ReadBackPoints(f, info) || Collide(f.written, f.readBack)
  {
    hide Authorised, VectorError, Sha256.Digest, Crc16.Crc, Decode, SizeOf;
    if f.written == f.readBack {
      assert f.readBack[..8] == VectorsOf(f.received);
    }
  }

  lemma PackageIsWhole(f: Facts, info: ImageInfo)
    requires Staged(f, info)
    ensures |f.received| >= PAYLOAD_OFFSET
    ensures f.received == HeaderOf(f.received) + SignatureOf(f.received) + f.written
  {
    hide ImageStartChecked, Sha256.Digest, Crc16.Crc, Decode, SizeOf;
  }

  /** Every operation before position `n` succeeded within its time limit. */
  predicate AllInTime(log: seq<Event>, n: nat)
    requires n <= |log|
  {
    hide InTime;
    forall i | 0 <= i < n && Operation(log[i]) :: Succeeded(log[i]) && InTime(log, i)
  }

  /** A token is handed out only for a staged image, and only if every operation was in time. */
  lemma TokensAreSound(log: seq<Event>, i: nat)
    requires Safe(log) && i < |log| && log[i].Issued?
    ensures Staged(Observe(log[..i]), log[i].info)
    ensures Punctual(log) ==> AllInTime(log, i)
  {
    hide Observe, Safe, Staged, Punctual, InTime;
    AllowedAt(log, i);
    if Punctual(log) {
      forall j | 0 <= j < i && Operation(log[j])
        ensures Succeeded(log[j]) && InTime(log, j)
      {
        UnbrokenSucceeds(log, j, i);
        OpenMeansInTime(log, j, i);
      }
    }
  }

  lemma UnbrokenSucceeds(log: seq<Event>, i: nat, n: nat)
    requires Safe(log) && i < n <= |log| && Operation(log[i]) && !Observe(log[..n]).broken
    ensures Succeeded(log[i])
  {
    hide Observe, Safe, Learn;
    LearnedAt(log, i);
    FailureBreaks(Observe(log[..i]), log[i]);
    FlashProgress(log, i + 1, n);
  }

  lemma FailureBreaks(f: Facts, e: Event)
    requires Operation(e)
    ensures !Succeeded(e) ==> Learn(f, e).broken
  {
  }

  lemma LogsAreSafe(env: Env, calls: seq<Call>, log: seq<Event>)
    requires LogOf(Run(env, InitialWorld(), calls).history, log)
    ensures Safe(log) && Punctual(log)
  {
    hide Observe, Safe, Explained, Run, InitialWorld, Punctual;
    EveryRunIsSafe(env, calls);
    var h := Run(env, InitialWorld(), calls).history;
    IsPunctual(h.log);
  }

  /** In every run, every token stands for a staged image, and every operation of its session was in time. */
  lemma EveryTokenIsSound(env: Env, calls: seq<Call>, log: seq<Event>, i: nat)
    requires LogOf(Run(env, InitialWorld(), calls).history, log) && i < |log| && log[i].Issued?
    ensures Staged(Observe(log[..i]), log[i].info) && AllInTime(log, i)
  {
    hide Observe, Safe, Staged, Run, InitialWorld, Punctual, InTime, AllInTime;
    LogsAreSafe(env, calls, log);
    TokensAreSound(log, i);
  }

  /** In every run, every erase and write is preceded by a signature check that succeeded in time. */
  lemma EveryFlashIsAuthorised(env: Env, calls: seq<Call>, log: seq<Event>, i: nat)
    requires LogOf(Run(env, InitialWorld(), calls).history, log) && i < |log| && FlashChange(log[i])
    ensures ImageStartChecked(Observe(log[..i])) && exists j :: VerifiedInTime(log, j, i)
  {
    hide Observe, Safe, Run, InitialWorld, Punctual, InTime, HeaderChecked, Decode, VectorError, Sha256.Digest;
    LogsAreSafe(env, calls, log);
    AuthenticatedBeforeFlash(log, i);
    var f := Observe(log[..i]);
    var j :| 0 <= j < i && log[j] == Verified(f.params.value.publicKey, Sha256.Digest(HeaderOf(f.received)),
                                             SignatureOf(f.received), 0) && InTime(log, j);
    assert VerifiedInTime(log, j, i);
  }

  /** The signature check at `j` was in time, and it is the one over the header received before `i`. */
  predicate VerifiedInTime(log: seq<Event>, j: nat, i: nat) {
    hide Observe, InTime, Sha256.Digest;
    && j < i < |log| && log[j].Verified? && log[j].result == 0 && InTime(log, j)
    && var f := Observe(log[..i]);
    && f.params.Some? && |f.received| >= PAYLOAD_OFFSET
    && log[j].key == f.params.value.publicKey && log[j].digest == Sha256.Digest(HeaderOf(f.received))
    && log[j].signature == SignatureOf(f.received)
  }

  // ----- tokens

  lemma GenerationsDiffer(i: nat, j: nat)
    requires i < j && j - i < GENERATIONS
    ensures Generation(i) != Generation(j)
  {
    var q, x, q', x' := i / GENERATIONS, i % GENERATIONS, j / GENERATIONS, j % GENERATIONS;
    assert i == GENERATIONS * q + x && j == GENERATIONS * q' + x';
    assert x == x' ==> j - i == GENERATIONS * (q' - q);
  }

  /** Tokens are never zero, and any two handed out fewer than 2^32 - 1 successes apart differ. */
  lemma TokensAreDistinct(w: World, i: nat)
    requires Inv(w) && i < |AllIssued(w.history)|
    ensures var issued := AllIssued(w.history);
      && issued[i].sessionGeneration != 0
      && forall j | i < j < |issued| && j - i < GENERATIONS ::
          issued[i].sessionGeneration != issued[j].sessionGeneration
  {
    hide Observe, Safe, Progress, HoldsToken, Generation;
    GenerationSteps(i);
    var issued := AllIssued(w.history);
    forall j | i < j < |issued| && j - i < GENERATIONS
      ensures issued[i].sessionGeneration != issued[j].sessionGeneration
    {
      GenerationsDiffer(i, j);
    }
  }

  /** The `k`-th token is no longer that of a session that is ready. */
  predicate Dead(w: World, k: nat) {
    hide AllIssued;
    k < |AllIssued(w.history)| && (w.session.state == Ready ==> k != |AllIssued(w.history)| - 1)
  }

  predicate AllDead(w: World) {
    hide Dead;
    forall k | 0 <= k < |AllIssued(w.history)| :: Dead(w, k)
  }

  /** The calls that end the life of a token: a new session, an abort, a failure, and its use. */
  predicate Ends(env: Env, w: World, call: Call)
    requires w.session.state == Receiving ==> Sane(w.session, 0)
  {
    hide Sane, Step;
    var r := Step(env, w, call);
    || (r.error == Ok && (call.CallBegin? || call.CallAbort? || call.CallActivate?))
    || (r.error != Ok && r.world.history.log != w.history.log)
  }

  /** After such a call every token handed out so far is dead, whether its session failed or was used up. */
  lemma TokensDie(env: Env, w: World, call: Call)
    requires Inv(w)
    ensures w.session.state == Receiving ==> Sane(w.session, 0)
    ensures Ends(env, w, call) ==> AllDead(Step(env, w, call).world)
  {
    hide Inv, Sane, AllIssued, ClosedWith, Explains;
    StepKeeps(env, w, call);
    if Ends(env, w, call) {
      NotReadyAfter(env, w, call);
    }
  }

  lemma NotReadyAfter(env: Env, w: World, call: Call)
    requires Inv(w) && (w.session.state == Receiving ==> Sane(w.session, 0)) && Ends(env, w, call)
    ensures Step(env, w, call).world.session.state != Ready
  {
    hide Inv, Sane, WritePackage, Finish, Receive, Verify, Install;
    var r := Step(env, w, call);
    if r.error != Ok {
      FailureIsReported(env, w, call);
    }
  }

  /** Abort succeeds exactly while a session is open, and then no token is left alive. */
  lemma AbortRevokes(w: World)
    requires Inv(w)
    ensures Abort(w).error == Ok <==> w.session.state == Receiving || w.session.state == Ready
    ensures Abort(w).error != Ok ==> Abort(w).world == w
    ensures Abort(w).error == Ok ==> Abort(w).world.session.state == Cancelled && AllDead(Abort(w).world)
  {
    hide Observe, Safe, Progress, Tokens, HoldsToken, AllIssued, Explained;
  }

  /** A dead token stays dead, and the tokens handed out stay what they are. */
  lemma {:induction false} DeadStaysDead(env: Env, w: World, calls: seq<Call>, k: nat)
    requires Inv(w) && Dead(w, k)
    ensures var w' := Run(env, w, calls); Dead(w', k) && AllIssued(w'.history)[k] == AllIssued(w.history)[k]
    decreases |calls|
  {
    hide Inv, Step, AllIssued;
    if calls != [] {
      StepKeeps(env, w, calls[0]);
      DeadStaysDead(env, Step(env, w, calls[0]).world, calls[1..], k);
    }
  }

  /** A dead token is refused, and nothing changes, as long as fewer than 2^32 - 1 tokens were handed out since. */
  lemma StaleTokensAreRefused(env: Env, w: World, k: nat, sha256: Option<seq<byte>>)
    requires Inv(w) && Dead(w, k) && |AllIssued(w.history)| - 1 - k < GENERATIONS
    ensures var r := Activate(env, w, AllIssued(w.history)[k].sessionGeneration, sha256);
      (r.error == InvalidState || r.error == InvalidArgument) && r.world == w
  {
    hide Observe, Safe, Progress, Generation, Install;
    var issued := AllIssued(w.history);
    if w.session.state == Ready {
      assert issued[|issued| - 1] == w.session.ready;
      GenerationsDiffer(k, |issued| - 1);
    }
  }

  /**
   * Single use: a token handed out before a call that ended its life is never accepted again, whatever calls follow,
   * as long as fewer than 2^32 - 1 tokens were handed out since.
   */
  lemma TokensNeverRevive(env: Env, w: World, call: Call, calls: seq<Call>, k: nat, sha256: Option<seq<byte>>)
    requires Inv(w) && k < |AllIssued(w.history)|
    ensures w.session.state == Receiving ==> Sane(w.session, 0)
    ensures Inv(Step(env, w, call).world)
    ensures var w' := Run(env, Step(env, w, call).world, calls);
      Ends(env, w, call) && |AllIssued(w'.history)| - 1 - k < GENERATIONS ==>
        var r := Activate(env, w', AllIssued(w.history)[k].sessionGeneration, sha256);
        (r.error == InvalidState || r.error == InvalidArgument) && r.world == w'
  {
    hide Inv, Step, Ends, AllIssued, Run, Activate, Sane;
    StepKeeps(env, w, call);
    TokensDie(env, w, call);
    var w1 := Step(env, w, call).world;
    if Ends(env, w, call) {
      assert Dead(w1, k) && AllIssued(w1.history)[k] == AllIssued(w.history)[k];
      DeadStaysDead(env, w1, calls, k);
      var w' := Run(env, w1, calls);
      if |AllIssued(w'.history)| - 1 - k < GENERATIONS {
        StaleTokensAreRefused(env, w', k, sha256);
      }
    }
  }

  /** At most two boot tables are written in a session, the candidate and then the table found before. */
  predicate TablesInOrder(f: Facts) {
    && |f.tables| <= 2
    && (f.tables != [] ==>
          && f.consumed && f.params.Some? && f.issued.Some? && f.previous.Some?
          && f.tables[0] == CandidateFor(f.params.value, f.issued.value))
    && (|f.tables| == 2 ==> f.tables[1] == f.previous.value)
    && (f.consumed || f.live ==> f.issued.Some?) && (f.issued.Some? ==> f.params.Some?)
  }

  lemma {:induction false} OneCandidate(log: seq<Event>)
    requires Safe(log)
    ensures TablesInOrder(Observe(log))
  {
    hide Learn, Allowed, TablesInOrder;
    if log == [] {
      NoTables();
    } else {
      var front, last := log[..|log| - 1], log[|log| - 1];
      OneCandidate(front);
      TableStep(Observe(front), last);
    }
  }

  lemma NoTables()
    ensures TablesInOrder(NoFacts())
  {
  }

  lemma TableStep(f: Facts, e: Event)
    requires TablesInOrder(f) && Allowed(f, e)
    ensures TablesInOrder(Learn(f, e))
  {
    hide CandidateFor, Staged, ImageStartChecked, HeaderChecked, OperationMayFollow, SizeOf, HeaderOf, SignatureOf,
         Decode, Sha256.Digest;
    if e.Issued? {
      IssuedHasParams(f, e);
    }
  }

  lemma IssuedHasParams(f: Facts, e: Event)
    requires Allowed(f, e) && e.Issued?
    ensures f.params.Some?
  {
    hide Authorised, VectorError, Decode, Sha256.Digest, Crc16.Crc;
  }

  // ----- activation

  /**
   * The log tells the course of an activation, and the course decides its result. Success means a durable candidate;
   * an activation error means that nothing was written, for want of the previous table in time, or that a candidate
   * that was not durable gave way to a durable previous table; uncertainty means that neither was durable.
   */
  lemma ActivationIsExact(env: Env, w: World, generation: uint32, sha256: Option<seq<byte>>)
    requires Inv(w) && Accepted(w, generation, sha256)
    ensures var r, candidate := Activate(env, w, generation, sha256), CandidateFor(w.session.params, w.session.ready);
      && (exists s :: Tells(s, candidate, generation, w.session.ready.sha256, w.history.log, r))
      && (forall s | Tells(s, candidate, generation, w.session.ready.sha256, w.history.log, r) :: r.error == Verdict(s))
  {
    hide Safe, Progress, Observe, Tokens, Install, CandidateFor, Right, Course, CourseOf, Verdict;
    var info := w.session.ready;
    var w1 := NoteIn(w, Consumed(generation, info.sha256)).(session := w.session.(
      state := Activating, ready := info.(sessionGeneration := 0)));
    SameCandidate(w1.session, info);
    InstallTells(env, w1);
    var s, r := CourseOf(env, w1), Activate(env, w, generation, sha256);
    var candidate := CandidateFor(w.session.params, info);
    assert Tells(s, candidate, generation, info.sha256, w.history.log, r);
    forall t | Tells(t, candidate, generation, info.sha256, w.history.log, r)
      ensures r.error == Verdict(t)
    {
      TellsOne(s, t, candidate, generation, info.sha256, w.history.log, r);
    }
  }

  // ----- the OTA partition

  /** What a successful erase or write does to the partition. */
  function Applied(flash: seq<byte>, e: Event): (s: seq<byte>)
    ensures |s| == |flash|
  {
    if e.Erased? && Succeeded(e) && e.offset + e.size <= |flash| then Wiped(flash, e.offset, e.size)
    else if e.Wrote? && Succeeded(e) && e.offset + |e.data| <= |flash| then Programmed(flash, e.offset, e.data)
    else flash
  }

  function FlashAfter(log: seq<Event>, flash: seq<byte>): (s: seq<byte>)
    ensures |s| == |flash|
  {
    if log == [] then flash else Applied(FlashAfter(log[..|log| - 1], flash), log[|log| - 1])
  }

  /** Erased and written bytes stay inside the image, and what is written is the payload received. */
  predicate Tiled(f: Facts) {
    && |f.written| <= f.erased
    && (f.erased > 0 ==>
          && f.params.Some? && |f.received| >= PAYLOAD_OFFSET
          && f.erased <= SizeOf(f) <= f.params.value.ota.length
          && (f.erased % ERASE_BLOCK_SIZE == 0 || f.erased == SizeOf(f)))
    && (f.written != [] ==>
          && f.erased == SizeOf(f) && PAYLOAD_OFFSET + |f.written| <= |f.received|
          && f.written == f.received[384..384 + |f.written|])
  }

  lemma ImageFits(f: Facts)
    requires ImageStartChecked(f)
    ensures f.params.Some? && |f.received| >= PAYLOAD_OFFSET && SizeOf(f) <= f.params.value.ota.length
  {
    hide FormatError, Sha256.Digest, Decode, VectorError;
    FormatBounds(f.params.value, HeaderOf(f.received));
  }

  /** What events do to the facts that tiling speaks of. */
  lemma TilingFacts(f: Facts, e: Event)
    requires Allowed(f, e) && !e.Began?
    ensures var g := Learn(f, e);
      && g.params == f.params && f.received <= g.received && (FlashChange(e) ==> g.received == f.received)
      && (FlashChange(e) ==> ImageStartChecked(f))
      && (g.erased == f.erased
          || (e.Erased? && f.written == [] == g.written && f.erased < g.erased <= SizeOf(f)
              && (g.erased == SizeOf(f) || g.erased == f.erased + ERASE_BLOCK_SIZE)))
      && (g.written == f.written
          || (&& e.Wrote? && g.written == f.written + e.data && g.erased == f.erased == SizeOf(f)
              && |g.written| <= SizeOf(f) && PAYLOAD_OFFSET + |g.written| <= |f.received|
              && e.data == f.received[384 + |f.written|..384 + |g.written|]))
  {
    hide Staged, ImageStartChecked, HeaderChecked, OperationMayFollow, Decode, Sha256.Digest, CandidateFor, SizeOf;
  }

  lemma SizeStays(f: Facts, g: Facts)
    requires f.received <= g.received && |f.received| >= PAYLOAD_OFFSET
    ensures SizeOf(g) == SizeOf(f)
  {
    hide PayloadSize;
    assert HeaderOf(g.received) == HeaderOf(f.received);
  }

  lemma TiledStep(f: Facts, e: Event)
    requires Tiled(f) && Allowed(f, e) && !e.Began?
    ensures Tiled(Learn(f, e))
  {
    hide Allowed, Learn, ImageStartChecked, SizeOf;
    var g := Learn(f, e);
    TilingFacts(f, e);
    if FlashChange(e) {
      ImageFits(f);
    }
    if |f.received| >= PAYLOAD_OFFSET {
      SizeStays(f, g);
    }
    if g.written != f.written {
      assert f.written == f.received[384..384 + |f.written|];
      assert g.written == f.received[384..384 + |g.written|];
    }
  }

  predicate PartitionHolds(f: Facts, s: seq<byte>, flash: seq<byte>) {
    && |f.written| <= f.erased <= |flash|
    && var end := SectorEnd(f.erased, |flash|);
    s == f.written + Blank(end - |f.written|) + flash[end..]
  }

  /** What an event other than a beginning does to the bytes erased and written. */
  lemma FlashFacts(f: Facts, e: Event)
    requires Allowed(f, e) && f.params.Some? && !Learn(f, e).broken
    ensures var g := Learn(f, e);
      && (!FlashChange(e) ==> g.erased == f.erased && g.written == f.written)
      && (FlashChange(e) ==> Succeeded(e) && ImageStartChecked(f))
      && (e.Erased? ==>
            && e.offset == f.erased && f.written == [] == g.written
            && e.offset < g.erased == e.offset + e.size <= SizeOf(f))
      && (e.Wrote? ==>
            && e.offset == |f.written| && g.written == f.written + e.data
            && g.erased == f.erased == SizeOf(f) && e.offset + |e.data| <= SizeOf(f))
  {
    hide Staged, ImageStartChecked, HeaderChecked, OperationMayFollow, Decode, Sha256.Digest, CandidateFor, SizeOf;
  }

  lemma PartitionStep(f: Facts, e: Event, s: seq<byte>, flash: seq<byte>)
    requires Tiled(f) && Allowed(f, e) && !Learn(f, e).broken && PartitionHolds(f, s, flash)
    requires f.params.Some? && f.params.value.ota.length == |flash|
    ensures PartitionHolds(Learn(f, e), Applied(s, e), flash)
  {
    hide Allowed, Learn, ImageStartChecked, SizeOf, Blank, Wiped, Programmed, SectorEnd;
    FlashFacts(f, e);
    if e.Erased? {
      ImageFits(f);
      OnBoundary(f.erased, |flash|);
      assert f.written + Blank(f.erased) + flash[f.erased..] == Blank(f.erased) + flash[f.erased..];
      EraseStep(s, flash, e.offset, e.size);
      var end := SectorEnd(e.offset + e.size, |flash|);
      assert [] + Blank(end) + flash[end..] == Blank(end) + flash[end..];
    } else if e.Wrote? {
      ImageFits(f);
      WriteStep(f.written, f.erased, s, flash, e.data);
    }
  }

  lemma OnBoundary(offset: nat, length: nat)
    requires offset % FLASH_SECTOR == 0 && offset <= length
    ensures SectorEnd(offset, length) == offset
  {
  }

  lemma EraseStep(s: seq<byte>, flash: seq<byte>, offset: nat, size: nat)
    requires offset % FLASH_SECTOR == 0 && offset + size <= |flash| && s == Blank(offset) + flash[offset..]
    ensures var end := SectorEnd(offset + size, |flash|); Wiped(s, offset, size) == Blank(end) + flash[end..]
  {
    hide SectorEnd;
    assert SectorStart(offset) == offset;
  }

  lemma WriteStep(written: seq<byte>, erased: nat, s: seq<byte>, flash: seq<byte>, data: seq<byte>)
    requires |written| + |data| <= erased <= |flash|
    requires var end := SectorEnd(erased, |flash|); s == written + Blank(end - |written|) + flash[end..]
    ensures var end := SectorEnd(erased, |flash|);
      Programmed(s, |written|, data) == (written + data) + Blank(end - |written| - |data|) + flash[end..]
  {
    hide Programmed, SectorEnd;
    assert s[|written|..|written| + |data|] == Blank(|data|);
    ProgramBlank(s, |written|, data);
  }

  /**
   * Exact flash tiling: while no operation has failed, the OTA partition holds the payload bytes received, each at
   * its own offset, then erased bytes up to the end of the last sector of the image, and beyond that what it held
   * before.
   */
  lemma {:induction false} PartitionHoldsPayload(log: seq<Event>, flash: seq<byte>)
    requires Safe(log) && log != [] && !Observe(log).broken
    requires log[0].Began? && log[0].params.ota.length == |flash|
    ensures Tiled(Observe(log)) && PartitionHolds(Observe(log), FlashAfter(log, flash), flash)
    decreases |log|
  {
    hide Learn, Allowed, Tiled, PartitionHolds, Applied;
    var front, last := log[..|log| - 1], log[|log| - 1];
    if front == [] {
      NothingOnFlash(flash, last);
    } else {
      ParamsStay(log, |front|);
      BrokenStays(Observe(front), last);
      PartitionHoldsPayload(front, flash);
      BeganIsFirst(Observe(front), last);
      TiledStep(Observe(front), last);
      PartitionStep(Observe(front), last, FlashAfter(front, flash), flash);
    }
  }

  lemma BrokenStays(f: Facts, e: Event)
    ensures f.broken ==> Learn(f, e).broken
  {
  }

  lemma NothingOnFlash(flash: seq<byte>, e: Event)
    requires e.Began?
    ensures Tiled(Learn(NoFacts(), e)) && PartitionHolds(Learn(NoFacts(), e), Applied(flash, e), flash)
  {
    hide SizeOf;
    var f := Learn(NoFacts(), e);
    assert f.erased == 0 && f.written == [] && SectorEnd(0, |flash|) == 0;
    assert [] + Blank(0) + flash[0..] == flash;
  }

  lemma {:induction false} FlashProgress(log: seq<Event>, i: nat, j: nat)
    requires Safe(log) && i <= j <= |log|
    ensures var f, g := Observe(log[..i]), Observe(log[..j]);
      f.erased <= g.erased && f.written <= g.written && (f.broken ==> g.broken)
    decreases j
  {
    hide Learn, Allowed;
    if i < j {
      FlashProgress(log, i, j - 1);
      assert log[..j][..j - 1] == log[..j - 1];
      ProgressStep(Observe(log[..j - 1]), log[j - 1]);
      AllowedAt(log, j - 1);
    }
  }

  lemma ProgressStep(f: Facts, e: Event)
    ensures var g := Learn(f, e);
      f.erased <= g.erased && f.written <= g.written && (f.broken ==> g.broken)
  {
  }

  /** What a flash change finds, and what it leaves if it succeeds. */
  lemma FlashCall(f: Facts, e: Event)
    requires Allowed(f, e) && FlashChange(e)
    ensures !f.broken
    ensures e.Erased? ==> e.offset == f.erased && f.written == []
    ensures e.Wrote? ==> e.offset == |f.written| && e.data != []
    ensures var g := Learn(f, e);
      !g.broken ==>
        && (e.Erased? ==> g.erased == e.offset + e.size)
        && (e.Wrote? ==> |g.written| == e.offset + |e.data|)
  {
    hide Staged, ImageStartChecked, HeaderChecked, Decode, Sha256.Digest, CandidateFor, SizeOf;
  }

  /**
   * No byte of the partition is erased twice or written twice, offsets only grow, and nothing is erased once
   * anything has been written, whatever the flash answers.
   */
  lemma FlashCallsAreInOrder(log: seq<Event>, i: nat, j: nat)
    requires Safe(log) && i < j < |log| && FlashChange(log[i]) && FlashChange(log[j])
    ensures log[i].Wrote? ==> log[j].Wrote? && log[i].offset + |log[i].data| <= log[j].offset
    ensures log[i].Erased? && log[j].Erased? ==> log[i].offset + log[i].size <= log[j].offset
  {
    hide Observe, Safe, Allowed, Learn;
    AllowedAt(log, i);
    AllowedAt(log, j);
    FlashCall(Observe(log[..i]), log[i]);
    FlashCall(Observe(log[..j]), log[j]);
    FlashProgress(log, i + 1, j);
    LearnedAt(log, i);
  }

  lemma LearnedAt(log: seq<Event>, i: nat)
    requires i < |log|
    ensures Observe(log[..i + 1]) == Learn(Observe(log[..i]), log[i])
  {
    hide Learn;
    assert log[..i + 1] == log[..i] + [log[i]];
    Extended(log[..i], log[i]);
  }

  /** Between calls, a receiving session that has started the image counts every byte in step. */
  lemma ReceivingCounters(w: World)
    requires Inv(w) && w.session.state == Receiving && w.session.erased
    ensures w.session.writeOffset == w.session.payloadWritten == w.session.packageReceived - PAYLOAD_OFFSET
    ensures w.session.payloadWritten == |FactsOf(w).written| <= w.session.payloadSize
  {
    hide Safe, Observe, Authorised, ImageStartChecked, Decode, Crc16.Crc, Tokens, PayloadSize;
    var f := FactsOf(w);
    AuthorisedSize(f);
  }
}
