/** Time limits: what follows an operation that took too long, in every log. */
module StagingTime {
  import opened Bytes
  import opened StagingTypes
  import opened PackageHeader
  import opened StagingModel
  import opened StagingLog
  import opened StagingRuns
  import Crc16
  import Sha256

  /** ... and nothing is left to be timed. */
  predicate OnTime(log: seq<Event>) { Punctual(log) && !Pending(log) && !Overdue(log) }

  /** The session can still be closed in time. */
  predicate Closable(log: seq<Event>) { Punctual(log) && !Pending(log) }

  predicate Timekept(r: Outcome) {
    hide OnTime, Closable;
    if r.error == Ok then OnTime(r.world.history.log) else Closable(r.world.history.log)
  }

  lemma Extends(log: seq<Event>, e: Event)
    ensures Punctual(log + [e]) <==> Punctual(log) && Timely(log, e)
  {
    hide Timely;
    assert (log + [e])[..|log + [e]| - 1] == log;
  }

  // ----- one event, one operation

  lemma Quiet(log: seq<Event>, e: Event)
    requires OnTime(log) && !Operation(e)
    ensures OnTime(log + [e])
  {
    hide Late, Milliseconds, Punctual;
    Extends(log, e);
    var longer := log + [e];
    if |longer| >= 3 {
      assert longer[|longer| - 2] == log[|log| - 1];
    }
  }

  lemma ClosingIsTimely(w: World, error: Error)
    requires Closable(w.history.log)
    ensures OnTime(Fail(w, error).history.log)
  {
    hide Late, Milliseconds, Punctual;
    Extends(w.history.log, Closed(error));
  }

  lemma Ticks(env: Env, w: World)
    requires OnTime(w.history.log)
    ensures OnTime(Tick(env, w).history.log)
  {
    hide OnTime;
    Quiet(w.history.log, Ticked(env.timeMs(w.history)));
  }

  /** An operation between two clock readings. */
  lemma Timed(log: seq<Event>, t: uint32, e: Event, t': uint32)
    requires OnTime(log) && Operation(e)
    ensures var after := log + [Ticked(t)] + [e];
      && (!Succeeded(e) ==> Closable(after))
      && (Succeeded(e) ==> Closable(after + [Ticked(t')]))
      && (Succeeded(e) && Milliseconds(t, t') <= Limit(e) ==> OnTime(after + [Ticked(t')]))
  {
    hide Late, Milliseconds, Punctual;
    Quiet(log, Ticked(t));
    var started := log + [Ticked(t)];
    var after := started + [e];
    var ended := after + [Ticked(t')];
    Extends(started, e);
    Extends(after, Ticked(t'));
    var n := |ended|;
    assert ended[n - 3] == Ticked(t) && ended[n - 2] == e && ended[n - 1] == Ticked(t');
    assert after[|after| - 1] == e;
  }

  lemma Loosened(log: seq<Event>)
    requires OnTime(log)
    ensures Closable(log)
  {
  }

  // ----- the operations of the engine

  lemma PollKept(env: Env, w: World)
    requires OnTime(w.history.log)
    ensures OnTime(Poll(env, w).1.history.log) && Closable(Poll(env, w).1.history.log)
  {
    hide OnTime, Closable;
    if w.session.params.hasCancellation {
      Quiet(w.history.log, Polled(env.cancels(w.history)));
    }
    Loosened(Poll(env, w).1.history.log);
  }

  lemma EraseBlockKept(env: Env, w: World, offset: nat, size: nat)
    requires OnTime(w.history.log)
    ensures Timekept(EraseBlock(env, w, offset, size))
  {
    hide OnTime, Closable, Late, Milliseconds;
    var w1 := Tick(env, w);
    var e := Erased(offset, size, env.erases(w1.history, offset, size));
    Timed(w.history.log, env.timeMs(w.history), e, env.timeMs(NoteIn(w1, e).history));
  }

  lemma {:induction false} EraseFromKept(env: Env, w: World, offset: nat)
    requires OnTime(w.history.log)
    ensures Timekept(EraseFrom(env, w, offset))
    decreases w.session.payloadSize - offset
  {
    hide OnTime, Closable, Poll, EraseBlock;
    if offset < w.session.payloadSize {
      PollKept(env, w);
      var size := EraseSize(w.session, offset);
      EraseBlockKept(env, Poll(env, w).1, offset, size);
      var step := EraseNext(env, w, offset);
      if step.error == Ok {
        EraseFromKept(env, step.world, offset + size);
      }
    }
  }

  lemma WriteBlockKept(env: Env, w: World, data: seq<byte>)
    requires OnTime(w.history.log)
    ensures Timekept(WriteBlock(env, w, data))
  {
    hide OnTime, Closable, Late, Milliseconds, Crc16.Crc;
    var w1, start := Tick(env, w), w.session.writeOffset;
    var (result, next) := env.writes(w1.history, start, data);
    var e := Wrote(start, data, result, next);
    Timed(w.history.log, env.timeMs(w.history), e, env.timeMs(NoteIn(w1, e).history));
  }

  lemma {:induction false} WritePayloadKept(env: Env, w: World, data: seq<byte>)
    requires OnTime(w.history.log)
    ensures Timekept(WritePayload(env, w, data))
    decreases |data|
  {
    hide OnTime, Closable, Poll, WriteBlock;
    if data != [] {
      PollKept(env, w);
      var size := Min(|data|, WRITE_BLOCK_SIZE);
      var w1 := Poll(env, w).1;
      WriteBlockKept(env, w1, data[..size]);
      var step := WriteBlock(env, w1, data[..size]);
      if step.error == Ok {
        WritePayloadKept(env, step.world, data[size..]);
      }
    }
  }

  lemma AdmitKept(env: Env, w: World)
    requires OnTime(w.history.log)
    ensures Timekept(Admit(env, w))
  {
    hide OnTime, Closable, Poll;
    PollKept(env, w);
    var w1 := Poll(env, w).1;
    var e := Admitted(w.session.metadata, env.admits(w1.history, w.session.metadata));
    Quiet(w1.history.log, e);
    Loosened(w1.history.log + [e]);
  }

  lemma AuthenticateKept(env: Env, w: World)
    requires OnTime(w.history.log)
    ensures Timekept(Authenticate(env, w))
  {
    hide OnTime, Closable, Poll, Late, Milliseconds, Admit, Sha256.Digest;
    PollKept(env, w);
    var p, w1 := w.session.params, Poll(env, w).1;
    var w2, digest := Tick(env, w1), Sha256.Digest(w.session.header);
    var result := env.verifies(w2.history, p.publicKey, digest, w.session.signature);
    var e := Verified(p.publicKey, digest, w.session.signature, result);
    var w3 := NoteIn(w2, e);
    Timed(w1.history.log, env.timeMs(w1.history), e, env.timeMs(w3.history));
    if result == 0 && !Late(env.timeMs(w1.history), env.timeMs(w3.history), SIGNATURE_MAX_MS) {
      AdmitKept(env, Tick(env, w3));
    }
  }

  lemma ValidateKept(env: Env, w: World)
    requires OnTime(w.history.log)
    ensures Timekept(ValidateHeader(env, w))
  {
    hide OnTime, Closable, Authenticate, HeaderError, Decode, PayloadSize;
    var h := w.session.header;
    Loosened(w.history.log);
    AuthenticateKept(env, w.(session := w.session.(payloadSize := PayloadSize(h), metadata := Decode(h))));
  }

  lemma StartKept(env: Env, w: World, rest: seq<byte>)
    requires OnTime(w.history.log)
    ensures Timekept(StartImage(env, w, rest))
  {
    hide OnTime, Closable, EraseFrom, WritePayload, VectorError;
    Loosened(w.history.log);
    EraseFromKept(env, w, 0);
    var erase := EraseFrom(env, w, 0);
    if erase.error == Ok {
      WritePayloadKept(env, erase.world, w.session.vectors);
      var first := WritePayload(env, erase.world, w.session.vectors);
      if first.error == Ok {
        WritePayloadKept(env, first.world, rest);
      }
    }
  }

  lemma AcceptKept(env: Env, w: World, data: seq<byte>)
    requires OnTime(w.history.log) && w.session.vectorsSize <= VECTOR_SIZE
    ensures Timekept(AcceptPayload(env, w, data))
  {
    hide OnTime, Closable, StartImage, WritePayload;
    if w.session.erased {
      WritePayloadKept(env, w, data);
    } else {
      var copied := Min(|data|, VECTOR_SIZE - w.session.vectorsSize);
      var w1 := w.(session := w.session.(
        vectors := Splice(w.session.vectors, w.session.vectorsSize, data[..copied]),
        vectorsSize := w.session.vectorsSize + copied));
      StartKept(env, w1, data[copied..]);
    }
  }

  lemma TakePartKept(env: Env, w: World, part: seq<byte>)
    requires part != [] && Sane(w.session, |part|) && PartSize(w.session, |part|) == |part| && OnTime(w.history.log)
    ensures Timekept(TakePart(env, w, part))
  {
    hide OnTime, Closable, AcceptPayload, ValidateHeader;
    if w.session.packageReceived >= PAYLOAD_OFFSET {
      AcceptKept(env, w, part);
    } else if w.session.packageReceived >= HEADER_SIZE {
      ValidateKept(env, TakeSignature(w, part));
    }
  }

  lemma {:induction false} ReceiveKept(env: Env, w: World, data: seq<byte>)
    requires (data != [] ==> Sane(w.session, |data|)) && OnTime(w.history.log)
    ensures Timekept(Receive(env, w, data))
    decreases |data|
  {
    hide OnTime, Closable, TakePart, PartSize;
    if data != [] {
      var n := PartSize(w.session, |data|);
      PartSizeStable(w.session, |data|);
      TakePartKept(env, w, data[..n]);
      var step := TakePart(env, w, data[..n]);
      if step.error == Ok {
        if n < |data| {
          TakePartCounts(env, w, data[..n]);
        }
        ReceiveKept(env, step.world, data[n..]);
      }
    }
  }

  lemma ChunkKept(env: Env, w: World, data: seq<byte>)
    requires Sane(w.session, |data|) && OnTime(w.history.log)
    ensures OnTime(TakeChunk(env, w, data).world.history.log)
  {
    hide OnTime, Closable, Receive, Poll, Fail, Sane;
    PollKept(env, w);
    var w1 := Poll(env, w).1;
    ClosingIsTimely(w1, CancelledError);
    SaneIsStable(w, w1, |data|);
    ReceiveKept(env, w1, data);
    var step := Receive(env, w1, data);
    if step.error != Ok {
      ClosingIsTimely(step.world, step.error);
    }
  }

  lemma SaneIsStable(w: World, w': World, size: nat)
    requires OnlyHistory(w, w') && Sane(w.session, size)
    ensures Sane(w'.session, size)
  {
  }

  lemma WritePackageKept(env: Env, w: World, buffer: Buffer)
    requires (w.session.state == Receiving ==> Sane(w.session, 0)) && OnTime(w.history.log)
    ensures OnTime(WritePackage(env, w, buffer).world.history.log)
  {
    hide OnTime, Closable, TakeChunk, Fail;
    if w.session.state == Receiving {
      MisuseKept(w, NullArgument, InvalidArgument);
      if !(buffer.Null? && buffer.size > 0) {
        var data := if buffer.Null? then [] else buffer.data;
        if |data| > w.session.params.packageSize - w.session.packageReceived {
          MisuseKept(w, Refused(|data|), TrailingData);
        } else {
          Quiet(w.history.log, Offered(data));
          ChunkKept(env, NoteIn(w, Offered(data)), data);
        }
      }
    }
  }

  lemma MisuseKept(w: World, e: Event, error: Error)
    requires OnTime(w.history.log) && !Operation(e)
    ensures OnTime(Fail(NoteIn(w, e), error).history.log)
  {
    hide OnTime, Closable, Fail;
    Quiet(w.history.log, e);
    Loosened(w.history.log + [e]);
    ClosingIsTimely(NoteIn(w, e), error);
  }

  lemma ReadBlockKept(env: Env, w: World, offset: nat, size: nat)
    requires OnTime(w.history.log)
    ensures Timekept(ReadBlock(env, w, offset, size).0)
  {
    hide OnTime, Closable, Late, Milliseconds, Delivered;
    var w1 := Tick(env, w);
    var (result, next) := env.fetches(w1.history, offset, size);
    var e := ReadBack(offset, Delivered(env, w1.history, offset, size), result, next);
    Timed(w.history.log, env.timeMs(w.history), e, env.timeMs(NoteIn(w1, e).history));
  }

  lemma {:induction false} ReadFromKept(env: Env, w: World, offset: nat, bytes: seq<byte>, descriptor: seq<byte>)
    requires |descriptor| == DESCRIPTOR_SIZE && OnTime(w.history.log)
    ensures Timekept(ReadFrom(env, w, offset, bytes, descriptor).outcome)
    decreases w.session.payloadSize - offset
  {
    hide OnTime, Closable, Poll, ReadBlock, CopyDescriptor;
    if offset < w.session.payloadSize {
      PollKept(env, w);
      var size := ReadSize(w.session, offset);
      ReadBlockKept(env, Poll(env, w).1, offset, size);
      var step := ReadNext(env, w, offset, bytes, descriptor);
      if step.outcome.error == Ok {
        ReadFromKept(env, step.outcome.world, offset + size, step.bytes, step.descriptor);
      }
    }
  }

  lemma VerifyKept(env: Env, w: World)
    requires OnTime(w.history.log)
    ensures OnTime(Verify(env, w).world.history.log)
  {
    hide OnTime, Closable, ReadFrom, Judge, Fail, Sha256.Digest, Crc16.Crc;
    Loosened(w.history.log);
    ClosingIsTimely(w, HashMismatch);
    ReadFromKept(env, w, 0, [], Zeros(256));
    var image := ReadFrom(env, w, 0, [], Zeros(256));
    var w1 := image.outcome.world;
    if image.outcome.error != Ok {
      ClosingIsTimely(w1, image.outcome.error);
    } else {
      Loosened(w1.history.log);
      ClosingIsTimely(w1, Judge(w1.session, image.bytes, image.descriptor));
      var info := ImageInfo(w1.nextGeneration, w1.session.payloadSize, Crc16.Crc(Crc16.ZERO, image.bytes),
                            Sha256.Digest(image.bytes), w1.session.metadata);
      Quiet(w1.history.log, Issued(info));
    }
  }

  lemma FinishKept(env: Env, w: World, wanted: bool)
    requires OnTime(w.history.log)
    ensures OnTime(Finish(env, w, wanted).world.history.log)
  {
    hide OnTime, Closable, Poll, Verify, Fail;
    Loosened(w.history.log);
    MisuseKept(w, NullArgument, InvalidArgument);
    ClosingIsTimely(w, Incomplete);
    PollKept(env, w);
    var w1 := Poll(env, w).1;
    ClosingIsTimely(w1, CancelledError);
    VerifyKept(env, w1.(session := w1.session.(state := Verifying)));
  }

  // ----- activation, where no operation takes place

  lemma CopiesKept(env: Env, w: World)
    requires OnTime(w.history.log)
    ensures OnTime(ReadCopies(env, w).1.history.log)
  {
    hide OnTime;
    var e := CopyRead(0, env.copy(w.history, 0));
    Quiet(w.history.log, e);
    Quiet(w.history.log + [e], CopyRead(1, env.copy(Note(w.history, e), 1)));
  }

  lemma CommitKept(env: Env, w: World, table: BootTable)
    requires OnTime(w.history.log)
    ensures OnTime(Commit(env, w, table).1.history.log)
  {
    hide OnTime, Late, Milliseconds, ReadCopies;
    Ticks(env, w);
    var w1 := Tick(env, w);
    var e := TableWritten(table, env.stores(w1.history, table));
    Quiet(w1.history.log, e);
    var w2 := NoteIn(w1, e);
    Ticks(env, w2);
    Ticks(env, Tick(env, w2));
    var w4 := Tick(env, Tick(env, w2));
    CopiesKept(env, w4);
    Ticks(env, ReadCopies(env, w4).1);
  }

  lemma InstallKept(env: Env, w: World)
    requires OnTime(w.history.log)
    ensures OnTime(Install(env, w).world.history.log)
  {
    hide OnTime, Closable, Late, Milliseconds, Commit, Candidate, Fail;
    Ticks(env, w);
    var w1 := Tick(env, w);
    var found := env.table(w1.history);
    Quiet(w1.history.log, TableRead(found));
    var w2 := NoteIn(w1, TableRead(found));
    Loosened(w2.history.log);
    ClosingIsTimely(w2, ActivationError);
    Ticks(env, w2);
    var w3 := Tick(env, w2);
    Loosened(w3.history.log);
    ClosingIsTimely(w3, ActivationError);
    CommitKept(env, w3, Candidate(w.session));
    var w4 := Commit(env, w3, Candidate(w.session)).1;
    if found.Some? {
      CommitKept(env, w4, found.value);
      var w5 := Commit(env, w4, found.value).1;
      Loosened(w5.history.log);
      ClosingIsTimely(w5, ActivationError);
      ClosingIsTimely(w5, ActivationUncertain);
    }
  }

  // ----- every run

  predicate TimelyHistory(h: History) {
    hide OnTime, Punctual;
    OnTime(h.log) && forall i | 0 <= i < |h.past| :: Punctual(h.past[i])
  }

  lemma StepKept(env: Env, w: World, call: Call)
    requires Inv(w) && TimelyHistory(w.history)
    ensures w.session.state == Receiving ==> Sane(w.session, 0)
    ensures TimelyHistory(Step(env, w, call).world.history)
  {
    hide Inv, Handed, Sane, OnTime, Punctual, WritePackage, Finish, Install, Begin;
    StepKeeps(env, w, call);
    match call
    case CallBegin(size, key, a, c) => BeginKept(env, w, size, key, a, c);
    case CallWritePackage(buffer) =>
      WritePackageKept(env, w, buffer);
      WriteIsOneSession(env, w, buffer);
    case CallFinish(wanted) =>
      FinishKept(env, w, wanted);
      FinishIsOneSession(env, w, wanted);
    case CallActivate(generation, sha256) =>
      var digest := if sha256.Some? then sha256.value else [];
      Quiet(w.history.log, Consumed(generation, digest));
      InstallKept(env, NoteIn(w, Consumed(generation, digest)).(session := w.session.(
        state := Activating, ready := w.session.ready.(sessionGeneration := 0))));
    case CallAbort => Quiet(w.history.log, Aborted);
  }

  lemma BeginKept(env: Env, w: World, size: nat, key: Option<seq<byte>>, hasAdmission: bool, hasCancellation: bool)
    requires TimelyHistory(w.history)
    ensures TimelyHistory(Begin(env, w, size, key, hasAdmission, hasCancellation).world.history)
  {
    hide OnTime, Punctual;
    IsPunctual(w.history.log);
    var r := Begin(env, w, size, key, hasAdmission, hasCancellation);
    if r.error == Ok {
      NothingTimed();
      Quiet([], Began(r.world.session.params));
      assert [] + [Began(r.world.session.params)] == r.world.history.log;
    }
  }

  lemma NothingTimed()
    ensures OnTime([])
  {
  }

  lemma IsPunctual(log: seq<Event>)
    requires OnTime(log)
    ensures Punctual(log)
  {
  }

  lemma WriteIsOneSession(env: Env, w: World, buffer: Buffer)
    requires w.session.state == Receiving ==> Sane(w.session, 0)
    ensures WritePackage(env, w, buffer).world.history.past == w.history.past
  {
    hide Receive, Poll;
  }

  lemma FinishIsOneSession(env: Env, w: World, wanted: bool)
    ensures Finish(env, w, wanted).world.history.past == w.history.past
  {
    hide ReadFrom, Judge, Poll, Sha256.Digest, Crc16.Crc;
  }

  lemma {:induction false} RunKept(env: Env, w: World, calls: seq<Call>)
    requires Inv(w) && TimelyHistory(w.history)
    ensures TimelyHistory(Run(env, w, calls).history)
    decreases |calls|
  {
    hide Inv, Handed, TimelyHistory, Step;
    if calls != [] {
      StepKeeps(env, w, calls[0]);
      StepKept(env, w, calls[0]);
      RunKept(env, Step(env, w, calls[0]).world, calls[1..]);
    }
  }

  lemma InitiallyTimely()
    ensures TimelyHistory(InitialWorld().history)
  {
  }
}
