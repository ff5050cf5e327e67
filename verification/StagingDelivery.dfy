/** On a platform that works, exactly the right packages are staged and installed. */
module StagingDelivery {
  import opened Bytes
  import opened StagingTypes
  import opened PackageHeader
  import opened StagingModel
  import opened StagingLog
  import opened StagingInvariant
  import opened StagingRuns
  import opened StagingTheorems
  import opened StagingTime
  import opened StagingChunks
  import Crc16
  import Sha256

  /**
   * In the session after `past`, which found `flash` in the OTA partition, reads deliver what its erases and writes
   * have left there.
   */
  ghost predicate Faithful(env: Env, past: seq<seq<Event>>, flash: seq<byte>) {
    && (forall h: History, o: nat, n: nat | h.past == past && o + n <= UINT32_MAX :: env.fetches(h, o, n) == (0, o + n))
    && (forall h: History, o: nat | h.past == past && o < |flash| :: env.delivers(h, o) == FlashAfter(h.log, flash)[o])
  }

  /** The boot table written last. */
  function LastTable(log: seq<Event>): Option<BootTable> {
    if log == [] then None
    else
      var last := log[|log| - 1];
      if last.TableWritten? then Some(last.table) else LastTable(log[..|log| - 1])
  }

  predicate TableCall(e: Event) { e.TableRead? || e.TableWritten? }

  /**
   * In the session after `past` the boot table can be read, both of its copies hold what the session wrote last, and
   * none of this is slow.
   */
  ghost predicate Bootable(env: Env, past: seq<seq<Event>>) {
    && (forall h: History | h.past == past :: env.table(h).Some?)
    && (forall h: History, copy: nat | h.past == past && LastTable(h.log).Some? ::
          env.copy(h, copy) == LastTable(h.log))
    && (forall h: History, e | h.past == past && TableCall(e) ::
          !Late(env.timeMs(h), env.timeMs(Note(Note(h, Ticked(env.timeMs(h))), e)), ACTIVATION_MAX_MS))
    && (forall h: History, a, b | h.past == past ::
          !Late(env.timeMs(h), env.timeMs(BothRead(h, Ticked(env.timeMs(h)), a, b)), ACTIVATION_MAX_MS))
  }

  /** The history once the clock and both copies of the boot table were read. */
  function BothRead(h: History, tick: Event, primary: Option<BootTable>, backup: Option<BootTable>): History {
    Note(Note(Note(h, tick), CopyRead(0, primary)), CopyRead(1, backup))
  }

  /** The error that the payload of a complete package calls for when Finish looks at it. */
  function ContentError(r: seq<byte>): Error
    requires |r| >= PAYLOAD_OFFSET + 0x300
  {
    var payload, h := r[384..], HeaderOf(r);
    if Sha256.Digest(payload) != h[20..52] then HashMismatch
    else if payload[0x200..0x300] != Descriptor(h) then DescriptorMismatch
    else Ok
  }

  /** What Finish should report of a complete package. */
  function InfoFor(generation: uint32, r: seq<byte>): ImageInfo
    requires PAYLOAD_OFFSET <= |r| <= UINT32_MAX
  {
    ImageInfo(generation, |r| - PAYLOAD_OFFSET, Crc16.Crc(Crc16.ZERO, r[384..]), Sha256.Digest(r[384..]),
        Decode(HeaderOf(r)))
  }

  // ----- read-back

  lemma Untouched(log: seq<Event>, e: Event, flash: seq<byte>)
    requires !FlashChange(e)
    ensures FlashAfter(log + [e], flash) == FlashAfter(log, flash)
  {
    assert (log + [e])[..|log + [e]| - 1] == log;
  }

  lemma PollLeavesFlash(env: Env, w: World, flash: seq<byte>)
    ensures FlashAfter(Poll(env, w).1.history.log, flash) == FlashAfter(w.history.log, flash)
  {
    hide FlashAfter;
    Untouched(w.history.log, Polled(env.cancels(w.history)), flash);
  }

  lemma ByteIsFlash(env: Env, h: History, flash: seq<byte>, o: nat)
    requires Faithful(env, h.past, flash) && o < |flash|
    ensures env.delivers(h, o) == FlashAfter(h.log, flash)[o]
  {
    hide FlashAfter;
  }

  lemma FetchSucceeds(env: Env, h: History, flash: seq<byte>, offset: nat, size: nat)
    requires Faithful(env, h.past, flash) && offset + size <= UINT32_MAX
    ensures env.fetches(h, offset, size) == (0, offset + size)
  {
    hide FlashAfter;
  }

  lemma DeliveredIsFlash(env: Env, h: History, flash: seq<byte>, offset: nat, size: nat)
    requires Faithful(env, h.past, flash) && offset + size <= |flash|
    ensures Delivered(env, h, offset, size) == FlashAfter(h.log, flash)[offset..offset + size]
  {
    hide FlashAfter, Faithful;
    var s, block := FlashAfter(h.log, flash), Delivered(env, h, offset, size);
    forall i | 0 <= i < size
      ensures block[i] == s[offset..offset + size][i]
    {
      ByteIsFlash(env, h, flash, offset + i);
    }
  }

  lemma ReadLeavesFlash(env: Env, w: World, flash: seq<byte>, offset: nat, size: nat)
    ensures FlashAfter(ReadBlock(env, w, offset, size).0.world.history.log, flash) == FlashAfter(w.history.log, flash)
  {
    hide Grown, Late, FlashAfter, Delivered;
    var w1 := Tick(env, w);
    Untouched(w.history.log, Ticked(env.timeMs(w.history)), flash);
    var (result, next) := env.fetches(w1.history, offset, size);
    var e := ReadBack(offset, Delivered(env, w1.history, offset, size), result, next);
    Untouched(w1.history.log, e, flash);
    var w2 := NoteIn(w1, e);
    Untouched(w2.history.log, Ticked(env.timeMs(w2.history)), flash);
  }

  lemma ReadBlockDelivers(env: Env, w: World, verdict: Verdict, policy: Policy, flash: seq<byte>, offset: nat,
                          size: nat)
    requires Cooperative(env, w.history.past, verdict, policy) && Faithful(env, w.history.past, flash)
    requires offset + size <= |flash| <= UINT32_MAX
    ensures var (r, block) := ReadBlock(env, w, offset, size);
      var s := FlashAfter(w.history.log, flash);
      && r.error == Ok && block == s[offset..offset + size] && FlashAfter(r.world.history.log, flash) == s
  {
    hide Grown, Late, FlashAfter, Cooperative, Faithful, Delivered;
    var h, w1 := w.history, Tick(env, w);
    Untouched(h.log, Ticked(env.timeMs(h)), flash);
    DeliveredIsFlash(env, w1.history, flash, offset, size);
    FetchSucceeds(env, w1.history, flash, offset, size);
    var block := Delivered(env, w1.history, offset, size);
    OperationInTime(env, h, verdict, policy, ReadBack(offset, block, 0, offset + size));
    ReadLeavesFlash(env, w, flash, offset, size);
  }

  lemma {:induction false} ReadsBack(env: Env, w: World, verdict: Verdict, policy: Policy, flash: seq<byte>,
                                     offset: nat, descriptor: seq<byte>)
    requires Cooperative(env, w.history.past, verdict, policy) && Faithful(env, w.history.past, flash)
      && |descriptor| == DESCRIPTOR_SIZE
    requires offset <= w.session.payloadSize <= |flash| <= UINT32_MAX
    ensures var s := FlashAfter(w.history.log, flash);
      var r := ReadFrom(env, w, offset, s[..offset], descriptor);
      r.outcome.error == Ok && r.bytes == s[..w.session.payloadSize]
    decreases w.session.payloadSize - offset
  {
    hide Cooperative, Faithful, FlashAfter, Poll, ReadBlock, CopyDescriptor;
    var s := FlashAfter(w.history.log, flash);
    if offset < w.session.payloadSize {
      var w1, size := Poll(env, w).1, ReadSize(w.session, offset);
      NoPollCancels(env, w, verdict, policy);
      PollLeavesFlash(env, w, flash);
      ReadBlockDelivers(env, w1, verdict, policy, flash, offset, size);
      assert s[..offset] + s[offset..offset + size] == s[..offset + size];
      var step := ReadNext(env, w, offset, s[..offset], descriptor);
      ReadsBack(env, step.outcome.world, verdict, policy, flash, offset + size, step.descriptor);
    }
  }

  // ----- finish

  lemma PackageIsComplete(w: World, r: seq<byte>)
    requires Progress(w, r) && |r| == w.session.params.packageSize
    ensures Complete(w)
  {
    hide Safe, Observe, Authorised, ImageStartChecked, Decode, PayloadSize, Crc16.Crc;
    var f := FactsOf(w);
    AuthorisedSize(f);
    assert HeaderOf(r) == HeaderOf(f.received);
  }

  /** A complete image is on flash as it was received. */
  lemma ImageIsOnFlash(w: World, flash: seq<byte>)
    requires Progress(w, FactsOf(w).received) && Complete(w) && |flash| == w.session.params.ota.length
    ensures var f := FactsOf(w);
      && w.session.payloadSize == |f.written| <= |flash|
      && FlashAfter(w.history.log, flash)[..w.session.payloadSize] == f.written
  {
    hide Safe, Observe, Progress, FlashAfter, SizeOf, Complete, ImageStartChecked, Decode, Sha256.Digest, Crc16.Crc;
    var f, log := FactsOf(w), w.history.log;
    CompleteMeans(w, f.received);
    ProgressIsCalm(w);
    ReadBackEmpty(w);
    LogIsThere(w, f);
    ParamsStay(log, |log|);
    assert log[..|log|] == log;
    PartitionHoldsPayload(log, flash);
  }

  /** Judging an image that reads back as it was written. */
  lemma SameBytesJudged(s: Session, f: Facts, descriptor: seq<byte>)
    requires |f.received| >= PAYLOAD_OFFSET + 0x300 && f.written == f.received[384..]
    requires s.header == HeaderOf(f.received) && s.metadata == Decode(s.header)
    requires s.payloadCrc == Crc16.Crc(Crc16.ZERO, f.written) && Covers(descriptor, f.written)
    requires Sha256.Digest(f.written) == s.metadata.sha256
    ensures Judge(s, f.written, descriptor) == ContentError(f.received)
  {
    hide Sha256.Digest, Crc16.Crc, Covers, Decode;
    DecodedDigest(s.header);
    Fetched(descriptor, f.written);
  }

  lemma VerifyDecides(env: Env, w: World, verdict: Verdict, policy: Policy, flash: seq<byte>)
    requires Cooperative(env, w.history.past, verdict, policy) && Faithful(env, w.history.past, flash)
      && |flash| == w.session.params.ota.length
    requires Progress(w, FactsOf(w).received) && Complete(w)
    ensures |FactsOf(w).received| >= PAYLOAD_OFFSET + 0x300
    ensures var v, r := Verify(env, w.(session := w.session.(state := Verifying))), FactsOf(w).received;
      && v.error == ContentError(r)
      && (v.error == Ok ==>
            |r| <= UINT32_MAX && v.world.session.ready == InfoFor(w.nextGeneration, r)
            && v.world.session.params == w.session.params)
  {
    hide Safe, Progress, Observe, Complete, Cooperative, Faithful, ReadFrom, Judge, Fail, FlashAfter, Covers,
         SizeOf, ImageStartChecked, Sha256.Digest, Crc16.Crc, Decode;
    var f := FactsOf(w);
    CompleteMeans(w, f.received);
    DecodedDigest(HeaderOf(f.received));
    var w2 := w.(session := w.session.(state := Verifying));
    if Sha256.Digest(w2.hashed) == w2.session.metadata.sha256 {
      ImageIsOnFlash(w, flash);
      ReadsBack(env, w2, verdict, policy, flash, 0, Zeros(256));
      assert FlashAfter(w2.history.log, flash)[..0] == [];
      ReadBackEmpty(w);
      ProgressIsCalm(w);
      ReadFromAt(env, w2, f, Zeros(256));
      var image := ReadFrom(env, w2, 0, [], Zeros(256));
      SameBytesJudged(image.outcome.world.session, f, image.descriptor);
    }
  }

  /** Finish decides a complete package by its contents alone. */
  lemma FinishDecides(env: Env, w: World, verdict: Verdict, policy: Policy, flash: seq<byte>)
    requires Cooperative(env, w.history.past, verdict, policy) && Faithful(env, w.history.past, flash)
      && |flash| == w.session.params.ota.length
    requires Inv(w) && w.session.state == Receiving && |FactsOf(w).received| == w.session.params.packageSize
    ensures |FactsOf(w).received| >= PAYLOAD_OFFSET + 0x300
    ensures var v, r := Finish(env, w, true), FactsOf(w).received;
      && v.error == ContentError(r)
      && (v.error == Ok ==>
            |r| <= UINT32_MAX && v.world.session.ready == InfoFor(w.nextGeneration, r)
            && v.world.session.params == w.session.params)
  {
    hide Safe, Progress, Observe, Cooperative, Faithful, Verify, Poll, ContentError, Tokens, HoldsToken, InfoFor;
    var f := FactsOf(w);
    PackageIsComplete(w, f.received);
    NoPollCancels(env, w, verdict, policy);
    PollKeepsProgress(env, w, f.received);
    VerifyDecides(env, Poll(env, w).1, verdict, policy, flash);
  }

  // ----- activation

  lemma LastWritten(log: seq<Event>, e: Event)
    ensures LastTable(log + [e]) == if e.TableWritten? then Some(e.table) else LastTable(log)
  {
    assert (log + [e])[..|log + [e]| - 1] == log;
  }

  lemma CopiesAgree(env: Env, w: World)
    requires Bootable(env, w.history.past) && LastTable(w.history.log).Some?
    ensures var table := LastTable(w.history.log);
      && ReadCopies(env, w).0 == table
      && ReadCopies(env, w).1.history == Note(Note(w.history, CopyRead(0, table)), CopyRead(1, table))
  {
    hide LastTable, Late, BothRead;
    LastWritten(w.history.log, CopyRead(0, env.copy(w.history, 0)));
  }

  lemma CallInTime(env: Env, h: History, e: Event)
    requires Bootable(env, h.past) && TableCall(e)
    ensures !Late(env.timeMs(h), env.timeMs(Note(Note(h, Ticked(env.timeMs(h))), e)), ACTIVATION_MAX_MS)
  {
    hide Late, LastTable, BothRead;
  }

  lemma ReadInTime(env: Env, h: History, a: Option<BootTable>, b: Option<BootTable>)
    requires Bootable(env, h.past)
    ensures !Late(env.timeMs(h), env.timeMs(BothRead(h, Ticked(env.timeMs(h)), a, b)), ACTIVATION_MAX_MS)
  {
    hide Late, LastTable, BothRead;
  }

  lemma CommitSucceeds(env: Env, w: World, table: BootTable)
    requires Bootable(env, w.history.past)
    ensures Commit(env, w, table).0
  {
    hide Late, LastTable, Bootable, ReadCopies;
    var w1 := Tick(env, w);
    var e := TableWritten(table, env.stores(w1.history, table));
    var w2 := NoteIn(w1, e);
    var w3 := Tick(env, w2);
    var w4 := Tick(env, w3);
    LastWritten(w1.history.log, e);
    LastWritten(w2.history.log, Ticked(env.timeMs(w2.history)));
    LastWritten(w3.history.log, Ticked(env.timeMs(w3.history)));
    CopiesAgree(env, w4);
    CallInTime(env, w.history, e);
    ReadInTime(env, w3.history, Some(table), Some(table));
  }

  lemma InstallSucceeds(env: Env, w: World)
    requires Bootable(env, w.history.past)
    ensures Install(env, w).error == Ok
  {
    hide Late, Commit, Candidate, LastTable, BothRead;
    var w1 := Tick(env, w);
    var e := TableRead(env.table(w1.history));
    CallInTime(env, w.history, e);
    CommitSucceeds(env, Tick(env, NoteIn(w1, e)), Candidate(w.session));
  }

  /** On a platform that boots, the token that Finish handed out installs the image, in both copies. */
  lemma ActivateSucceeds(env: Env, w: World)
    requires Bootable(env, w.history.past) && Inv(w) && w.session.state == Ready
    ensures var r := Activate(env, w, w.session.ready.sessionGeneration, Some(w.session.ready.sha256));
      && r.error == Ok && r.world.session.state == Activated
      && FactsOf(r.world).tables == [CandidateFor(w.session.params, w.session.ready)]
      && FactsOf(r.world).primary == FactsOf(r.world).backup == Some(CandidateFor(w.session.params, w.session.ready))
  {
    hide Bootable, Install, Safe, Observe, Progress, Tokens, Explained, CandidateFor;
    var info := w.session.ready;
    InstallSucceeds(env, NoteIn(w, Consumed(info.sessionGeneration, info.sha256)).(session := w.session.(
      state := Activating, ready := info.(sessionGeneration := 0))));
    ActivationOutcomes(env, w, info.sessionGeneration, Some(info.sha256));
  }

  /** The boot table entry for a package: the payload, in the OTA partition, to be installed over the application. */
  function EntryFor(p: Params, r: seq<byte>): BootTable
    requires PAYLOAD_OFFSET <= |r| <= UINT32_MAX
  {
    BootTable(p.ota.start, |r| - PAYLOAD_OFFSET, Zeros(8), 'A' as int, 'U' as int, Crc16.Crc(Crc16.ZERO, r[384..]),
        Zeros(4))
  }

  /** The bytes are a package that this session should install. */
  predicate Deliverable(p: Params, verdict: Verdict, policy: Policy, r: seq<byte>) {
    hide ErrorIn, ContentError;
    && |r| == p.packageSize && |r| >= PAYLOAD_OFFSET + 0x300
    && ErrorIn(p, verdict, policy, r) == Ok && ContentError(r) == Ok
  }

  // ----- the whole procedure

  /** All chunks are handed over, Finish is called, and its token is used. */
  function HandOver(env: Env, w: World, chunks: seq<seq<byte>>): Outcome
    requires Inv(w)
  {
    hide Inv, WriteAll, Finish, Activate;
    var received := WriteAll(env, w, chunks);
    if received.error != Ok then received
    else
      var finished := Finish(env, received.world, true);
      if finished.error != Ok then finished
      else
        var info := finished.world.session.ready;
        Activate(env, finished.world, info.sessionGeneration, Some(info.sha256))
  }

  /** A byte too many is refused. */
  lemma {:induction false} TooMuchIsRefused(env: Env, w: World, verdict: Verdict, policy: Policy,
                                            chunks: seq<seq<byte>>)
    requires Cooperative(env, w.history.past, verdict, policy) && Open(w, verdict, policy)
    requires |FactsOf(w).received| + |Concat(chunks)| > w.session.params.packageSize
    ensures WriteAll(env, w, chunks).error != Ok
    decreases |chunks|
  {
    hide Inv, Observe, ErrorIn, Cooperative, WritePackage;
    if chunks == [] {
      OpenHasRoom(w, verdict, policy);
      assert false;
    } else if |FactsOf(w).received| + |chunks[0]| > w.session.params.packageSize {
      ChunkTooLong(env, w, verdict, policy, chunks[0]);
    } else {
      ChunkDecides(env, w, verdict, policy, chunks[0]);
      var step := WritePackage(env, w, Bytes(chunks[0]));
      if step.error == Ok {
        TooMuchIsRefused(env, step.world, verdict, policy, chunks[1..]);
      }
    }
  }

  lemma OpenHasRoom(w: World, verdict: Verdict, policy: Policy)
    requires Open(w, verdict, policy)
    ensures w.session.packageReceived == |FactsOf(w).received| <= w.session.params.packageSize
  {
    hide Observe, Safe, Progress, Tokens, HoldsToken, ErrorIn;
    ReceivedCount(w);
  }

  lemma ChunkTooLong(env: Env, w: World, verdict: Verdict, policy: Policy, data: seq<byte>)
    requires Open(w, verdict, policy) && |FactsOf(w).received| + |data| > w.session.params.packageSize
    ensures w.session.state == Receiving ==> Sane(w.session, 0)
    ensures WritePackage(env, w, Bytes(data)).error == TrailingData
  {
    hide Inv, Observe, Sane, TakeChunk, ErrorIn;
    WritePackageKeeps(env, w, Bytes(data));
    OpenHasRoom(w, verdict, policy);
  }

  lemma TooLittleIsRefused(env: Env, w: World, verdict: Verdict, policy: Policy)
    requires Open(w, verdict, policy) && |FactsOf(w).received| < w.session.params.packageSize
    ensures Finish(env, w, true).error == Incomplete
  {
    hide Inv, Observe, Verify, Poll, ErrorIn;
    OpenHasRoom(w, verdict, policy);
  }

  lemma HandOverIsExact(env: Env, w: World, verdict: Verdict, policy: Policy, chunks: seq<seq<byte>>, flash: seq<byte>)
    requires Cooperative(env, w.history.past, verdict, policy) && Faithful(env, w.history.past, flash)
    requires Bootable(env, w.history.past) && Open(w, verdict, policy) && FactsOf(w).received == []
    requires |flash| == w.session.params.ota.length
    ensures var r := HandOver(env, w, chunks);
      && (r.error == Ok <==> Deliverable(w.session.params, verdict, policy, Concat(chunks)))
      && (r.error == Ok ==>
            && r.world.session.state == Activated && |Concat(chunks)| <= UINT32_MAX
            && FactsOf(r.world).primary == FactsOf(r.world).backup == Some(EntryFor(w.session.params, Concat(chunks))))
  {
    hide Cooperative, Faithful, Bootable, Inv, Observe, Safe, WriteAll, Concat, Finish, Activate, ErrorIn, ContentError,
         Crc16.Crc, Sha256.Digest, Decode;
    var bytes := Concat(chunks);
    if |bytes| > w.session.params.packageSize {
      TooMuchIsRefused(env, w, verdict, policy, chunks);
    } else {
      assert [] + bytes == bytes;
      ChunksDecide(env, w, verdict, policy, chunks);
      var received := WriteAll(env, w, chunks);
      if received.error == Ok {
        if |bytes| < w.session.params.packageSize {
          TooLittleIsRefused(env, received.world, verdict, policy);
        } else {
          WholePackage(env, received.world, verdict, policy, flash);
        }
      }
    }
  }

  /** What Finish and Activate make of a complete package. */
  lemma WholePackage(env: Env, w: World, verdict: Verdict, policy: Policy, flash: seq<byte>)
    requires Cooperative(env, w.history.past, verdict, policy) && Faithful(env, w.history.past, flash)
    requires Bootable(env, w.history.past) && |flash| == w.session.params.ota.length
    requires Inv(w) && w.session.state == Receiving && |FactsOf(w).received| == w.session.params.packageSize
    ensures var finished, r := Finish(env, w, true), FactsOf(w).received;
      && |r| >= PAYLOAD_OFFSET + 0x300 && finished.error == ContentError(r)
      && (finished.error == Ok ==>
            var info := finished.world.session.ready;
            var a := Activate(env, finished.world, info.sessionGeneration, Some(info.sha256));
            && a.error == Ok && a.world.session.state == Activated && |r| <= UINT32_MAX
            && FactsOf(a.world).primary == FactsOf(a.world).backup == Some(EntryFor(w.session.params, r)))
  {
    hide Cooperative, Faithful, Bootable, Inv, Handed, Observe, Finish, Activate, ContentError, Crc16.Crc,
         Sha256.Digest, Decode;
    FinishDecides(env, w, verdict, policy, flash);
    var finished := Finish(env, w, true);
    if finished.error == Ok {
      FinishShape(env, w, true);
      FinishKeeps(env, w, true);
      FinishIsOneSession(env, w, true);
      ActivateSucceeds(env, finished.world);
    }
  }

  /** Begin may start: no session is active, the key and the size are acceptable, and the partitions are there. */
  predicate Startable(env: Env, w: World, size: nat, key: Option<seq<byte>>) {
    && w.session.state !in {Receiving, Verifying, Activating}
    && ValidPublicKey(key) && PAYLOAD_OFFSET < size <= UINT32_MAX
    && var application := env.application(w.history);
    Usable(application) && Usable(env.ota(LookedUp(w.history, application)))
  }

  function ParamsFor(env: Env, w: World, size: nat, key: Option<seq<byte>>, hasAdmission: bool, hasCancellation: bool):
    Params
    requires Startable(env, w, size, key)
  {
    var application := env.application(w.history);
    Params(size, key.value, hasAdmission, hasCancellation, application.value,
           env.ota(LookedUp(w.history, application)).value)
  }

  /** Begin succeeds exactly then, and opens a session with these parameters behind all earlier ones. */
  lemma BeginIff(env: Env, w: World, size: nat, key: Option<seq<byte>>, hasAdmission: bool, hasCancellation: bool)
    ensures var r := Begin(env, w, size, key, hasAdmission, hasCancellation);
      && (r.error == Ok <==> Startable(env, w, size, key))
      && (r.error == Ok ==>
            && r.world.session.params == ParamsFor(env, w, size, key, hasAdmission, hasCancellation)
            && r.world.history.past == w.history.past + [w.history.log])
  {
  }

  /** A whole update: Begin, the chunks, Finish, and Activate with the token. */
  function Deliver(env: Env, w: World, size: nat, key: Option<seq<byte>>, hasAdmission: bool, hasCancellation: bool,
                   chunks: seq<seq<byte>>): Outcome
    requires Inv(w)
  {
    hide Inv, Begin, HandOver;
    BeginKeeps(env, w, size, key, hasAdmission, hasCancellation);
    var begun := Begin(env, w, size, key, hasAdmission, hasCancellation);
    if begun.error != Ok then begun else HandOver(env, begun.world, chunks)
  }

  /**
   * Exact delivery: on a platform that works in the session to come, a whole update succeeds if and only if Begin may
   * start and the bytes form a package of the announced size whose header, signature, admission, vectors, digest and
   * descriptor are right, however they are cut into chunks; and success means that both copies of the boot table hold
   * the entry for it.
   */
  lemma DeliveryIsExact(env: Env, w: World, verdict: Verdict, policy: Policy, size: nat, key: Option<seq<byte>>,
                        hasAdmission: bool, hasCancellation: bool, chunks: seq<seq<byte>>, flash: seq<byte>)
    requires Inv(w)
    requires var past := w.history.past + [w.history.log];
      Cooperative(env, past, verdict, policy) && Faithful(env, past, flash) && Bootable(env, past)
    requires Startable(env, w, size, key) ==>
      |flash| == ParamsFor(env, w, size, key, hasAdmission, hasCancellation).ota.length
    ensures var r := Deliver(env, w, size, key, hasAdmission, hasCancellation, chunks);
      && (r.error == Ok <==>
            && Startable(env, w, size, key)
            && Deliverable(ParamsFor(env, w, size, key, hasAdmission, hasCancellation), verdict, policy,
                           Concat(chunks)))
      && (r.error == Ok ==>
            && r.world.session.state == Activated && PAYLOAD_OFFSET <= |Concat(chunks)| <= UINT32_MAX
            && FactsOf(r.world).primary == FactsOf(r.world).backup
            == Some(EntryFor(ParamsFor(env, w, size, key, hasAdmission, hasCancellation), Concat(chunks))))
  {
    hide Cooperative, Faithful, Bootable, Inv, Observe, Begin, HandOver, Startable, ParamsFor, Deliverable, EntryFor,
         Concat, Open;
    BeginIff(env, w, size, key, hasAdmission, hasCancellation);
    BeginKeeps(env, w, size, key, hasAdmission, hasCancellation);
    var begun := Begin(env, w, size, key, hasAdmission, hasCancellation);
    if begun.error == Ok {
      BeginOpens(env, w, verdict, policy, size, key, hasAdmission, hasCancellation);
      HandOverIsExact(env, begun.world, verdict, policy, chunks, flash);
      if Deliverable(begun.world.session.params, verdict, policy, Concat(chunks)) {
        DeliverableIsLong(begun.world.session.params, verdict, policy, Concat(chunks));
      }
    }
  }

  lemma DeliverableIsLong(p: Params, verdict: Verdict, policy: Policy, r: seq<byte>)
    requires Deliverable(p, verdict, policy, r)
    ensures |r| >= PAYLOAD_OFFSET
  {
  }

  // ----- a platform that works

  /** All that was ever logged, in order. */
  function AllEvents(h: History): seq<Event> { Concat(h.past) + h.log }

  /** How long things take: a minute before each chunk and before Activate, four seconds for a signature check. */
  function Duration(e: Event): nat {
    if e.Offered? || e.Consumed? then 60_000 else if e.Verified? then 4_000 else 1
  }

  function Elapsed(events: seq<Event>): nat {
    if events == [] then 0 else Elapsed(events[..|events| - 1]) + Duration(events[|events| - 1])
  }

  /** The boot table in force, `table` being the one at first. */
  function TableNow(events: seq<Event>, table: BootTable): BootTable {
    if LastTable(events).Some? then LastTable(events).value else table
  }

  /** Flash and boot table keep their contents from session to session, and the clock runs on and wraps. */
  function WorkingPlatform(application: Partition, ota: Partition, verdict: Verdict, policy: Policy, flash: seq<byte>,
                           table: BootTable): Env {
    Env(h => Some(application), h => Some(ota), h => false, (h, m) => policy(m),
        h => Elapsed(AllEvents(h)) % 0x1_0000_0000,
        (h, k, d, s) => verdict(k, d, s), (h, o, n) => 0,
        (h, o, d: seq<byte>) => (0, if o + |d| <= UINT32_MAX then o + |d| else 0),
        (h, o, n) => (0, if o + n <= UINT32_MAX then o + n else 0),
        (h: History, o: nat) => if o < |flash| then FlashAfter(AllEvents(h), flash)[o] else 0,
        h => Some(TableNow(AllEvents(h), table)), (h, t) => 0, (h, copy) => Some(TableNow(AllEvents(h), table)))
  }

  lemma ElapsedGrows(h: History, e: Event)
    ensures Elapsed(AllEvents(Note(h, e))) == Elapsed(AllEvents(h)) + Duration(e)
  {
    hide Concat, Duration;
    var longer := AllEvents(Note(h, e));
    assert longer == AllEvents(h) + [e];
    assert longer[..|longer| - 1] == AllEvents(h);
  }

  lemma ClockIsPrompt(h: History, t: Event, e: Event, e': Event, limit: nat)
    requires Duration(t) + Duration(e) <= limit < 0x1_0000_0000
    ensures var start := Elapsed(AllEvents(h)) % 0x1_0000_0000;
      && !Late(start, Elapsed(AllEvents(Note(Note(h, t), e))) % 0x1_0000_0000, limit)
      && (Duration(t) + Duration(e) + Duration(e') <= limit ==>
            !Late(start, Elapsed(AllEvents(Note(Note(Note(h, t), e), e'))) % 0x1_0000_0000, limit))
  {
    hide Late, Elapsed, AllEvents, Duration;
    ElapsedGrows(h, t);
    ElapsedGrows(Note(h, t), e);
    ElapsedGrows(Note(Note(h, t), e), e');
    var started := Elapsed(AllEvents(h));
    ClockMeasures(started, Duration(t) + Duration(e), limit);
    if Duration(t) + Duration(e) + Duration(e') <= limit {
      ClockMeasures(started, Duration(t) + Duration(e) + Duration(e'), limit);
    }
  }

  lemma {:induction false} FlashCarriesOn(past: seq<Event>, log: seq<Event>, flash: seq<byte>)
    ensures FlashAfter(past + log, flash) == FlashAfter(log, FlashAfter(past, flash))
    decreases |log|
  {
    hide Applied;
    if log == [] {
      assert past + log == past;
    } else {
      var front := log[..|log| - 1];
      assert (past + log)[..|past + log| - 1] == past + front;
      FlashCarriesOn(past, front, flash);
    }
  }

  lemma {:induction false} TableCarriesOn(past: seq<Event>, log: seq<Event>)
    requires LastTable(log).Some?
    ensures LastTable(past + log) == LastTable(log)
    decreases |log|
  {
    var front := log[..|log| - 1];
    assert (past + log)[..|past + log| - 1] == past + front;
    if !log[|log| - 1].TableWritten? {
      TableCarriesOn(past, front);
    }
  }

  lemma WorkingIsCooperative(application: Partition, ota: Partition, verdict: Verdict, policy: Policy, flash: seq<byte>,
                             table: BootTable, past: seq<seq<Event>>)
    ensures Cooperative(WorkingPlatform(application, ota, verdict, policy, flash, table), past, verdict, policy)
  {
    hide FlashAfter, TableNow, Elapsed, AllEvents, Late;
    var env := WorkingPlatform(application, ota, verdict, policy, flash, table);
    forall h: History, e | h.past == past && Operation(e)
      ensures !Late(env.timeMs(h), env.timeMs(Note(Note(h, Ticked(env.timeMs(h))), e)), Limit(e))
    {
      ClockIsPrompt(h, Ticked(env.timeMs(h)), e, e, Limit(e));
    }
  }

  lemma WorkingIsFaithful(application: Partition, ota: Partition, verdict: Verdict, policy: Policy, flash: seq<byte>,
                          table: BootTable, past: seq<seq<Event>>)
    ensures Faithful(WorkingPlatform(application, ota, verdict, policy, flash, table), past,
                     FlashAfter(Concat(past), flash))
  {
    hide FlashAfter, TableNow, Elapsed, Concat;
    var env, found := WorkingPlatform(application, ota, verdict, policy, flash, table), FlashAfter(Concat(past), flash);
    forall h: History, o: nat | h.past == past && o < |found|
      ensures env.delivers(h, o) == FlashAfter(h.log, found)[o]
    {
      FlashCarriesOn(Concat(past), h.log, flash);
    }
  }

  lemma WorkingIsBootable(application: Partition, ota: Partition, verdict: Verdict, policy: Policy, flash: seq<byte>,
                          table: BootTable, past: seq<seq<Event>>)
    ensures Bootable(WorkingPlatform(application, ota, verdict, policy, flash, table), past)
  {
    hide FlashAfter, Elapsed, LastTable, Late, Concat;
    var env := WorkingPlatform(application, ota, verdict, policy, flash, table);
    forall h: History, copy: nat | h.past == past && LastTable(h.log).Some?
      ensures env.copy(h, copy) == LastTable(h.log)
    {
      TableCarriesOn(Concat(h.past), h.log);
    }
    forall h, e | TableCall(e)
      ensures !Late(env.timeMs(h), env.timeMs(Note(Note(h, Ticked(env.timeMs(h))), e)), ACTIVATION_MAX_MS)
    {
      ClockIsPrompt(h, Ticked(env.timeMs(h)), e, e, ACTIVATION_MAX_MS);
    }
    forall h, a, b
      ensures !Late(env.timeMs(h), env.timeMs(BothRead(h, Ticked(env.timeMs(h)), a, b)), ACTIVATION_MAX_MS)
    {
      ClockIsPrompt(h, Ticked(env.timeMs(h)), CopyRead(0, a), CopyRead(1, b), ACTIVATION_MAX_MS);
    }
  }

  /**
   * The assumptions on a platform can be met together, after any earlier sessions: by one that keeps flash and boot
   * table, with a clock that runs between calls and a signature check that takes seconds.
   */
  lemma WorkingPlatformWorks(application: Partition, ota: Partition, verdict: Verdict, policy: Policy, flash: seq<byte>,
                             table: BootTable, past: seq<seq<Event>>)
    ensures var env := WorkingPlatform(application, ota, verdict, policy, flash, table);
      && Cooperative(env, past, verdict, policy) && Faithful(env, past, FlashAfter(Concat(past), flash))
      && Bootable(env, past)
  {
    hide Cooperative, Faithful, Bootable, WorkingPlatform, FlashAfter, Concat;
    WorkingIsCooperative(application, ota, verdict, policy, flash, table, past);
    WorkingIsFaithful(application, ota, verdict, policy, flash, table, past);
    WorkingIsBootable(application, ota, verdict, policy, flash, table, past);
  }
}
