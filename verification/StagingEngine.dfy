/** The staging engine in its own, imperative form, proved equal to the functions of the model. */
module StagingEngine {
  import opened Bytes
  import opened StagingTypes
  import opened PackageHeader
  import opened StagingModel
  import opened StagingLog
  import opened StagingInvariant
  import opened StagingRuns
  import Crc16
  import HeaderChecks
  import Sha256

  /** The platform operations and the callbacks: each answers as the environment decides, and is recorded. */
  class Platform {
    const env: Env
    var history: History

    constructor (env: Env)
      ensures this.env == env && history == History([], [], [])
    {
      this.env := env;
      history := History([], [], []);
    }

    method Record(e: Event)
      modifies this
      ensures history == Note(old(history), e)
    {
      history := history.(log := history.log + [e]);
    }

    /** A new session starts its own log. */
    method StartLog(e: Event)
      modifies this
      ensures history == History(old(history.past) + [old(history.log)], [e], old(history.lookups))
    {
      history := History(history.past + [history.log], [e], history.lookups);
    }

    method GetApplicationPartition() returns (found: Option<Partition>)
      modifies this
      ensures found == env.application(old(history)) && history == LookedUp(old(history), found)
    {
      found := env.application(history);
      history := LookedUp(history, found);
    }

    method GetOtaPartition() returns (found: Option<Partition>)
      modifies this
      ensures found == env.ota(old(history)) && history == LookedUp(old(history), found)
    {
      found := env.ota(history);
      history := LookedUp(history, found);
    }

    method Cancellation() returns (cancel: bool)
      modifies this
      ensures cancel == env.cancels(old(history)) && history == Note(old(history), Polled(cancel))
    {
      cancel := env.cancels(history);
      Record(Polled(cancel));
    }

    method Admission(metadata: Metadata) returns (accepted: bool)
      modifies this
      ensures accepted == env.admits(old(history), metadata)
      ensures history == Note(old(history), Admitted(metadata, accepted))
    {
      accepted := env.admits(history, metadata);
      Record(Admitted(metadata, accepted));
    }

    method TimeMs() returns (ms: uint32)
      modifies this
      ensures ms == env.timeMs(old(history)) && history == Note(old(history), Ticked(ms))
    {
      ms := env.timeMs(history);
      Record(Ticked(ms));
    }

    method VerifySignature(key: seq<byte>, digest: seq<byte>, signature: seq<byte>) returns (result: int)
      modifies this
      ensures result == env.verifies(old(history), key, digest, signature)
      ensures history == Note(old(history), Verified(key, digest, signature, result))
    {
      result := env.verifies(history, key, digest, signature);
      Record(Verified(key, digest, signature, result));
    }

    method EraseOta(offset: nat, size: nat) returns (result: int)
      modifies this
      ensures result == env.erases(old(history), offset, size)
      ensures history == Note(old(history), Erased(offset, size, result))
    {
      result := env.erases(history, offset, size);
      Record(Erased(offset, size, result));
    }

    method WriteOta(offset: nat, data: seq<byte>) returns (result: int, next: uint32)
      modifies this
      ensures (result, next) == env.writes(old(history), offset, data)
      ensures history == Note(old(history), Wrote(offset, data, result, next))
    {
      var answer := env.writes(history, offset, data);
      result, next := answer.0, answer.1;
      Record(Wrote(offset, data, result, next));
    }

    method ReadOta(offset: nat, size: nat) returns (result: int, next: uint32, block: seq<byte>)
      modifies this
      ensures (result, next) == env.fetches(old(history), offset, size)
      ensures block == Delivered(env, old(history), offset, size)
      ensures history == Note(old(history), ReadBack(offset, block, result, next))
    {
      var answer := env.fetches(history, offset, size);
      result, next, block := answer.0, answer.1, Delivered(env, history, offset, size);
      Record(ReadBack(offset, block, result, next));
    }

    method ReadBootTable() returns (table: Option<BootTable>)
      modifies this
      ensures table == env.table(old(history)) && history == Note(old(history), TableRead(table))
    {
      table := env.table(history);
      Record(TableRead(table));
    }

    method WriteBootTable(table: BootTable)
      modifies this
      ensures history == Note(old(history), TableWritten(table, env.stores(old(history), table)))
    {
      Record(TableWritten(table, env.stores(history, table)));
    }

    method ReadParameterCopy(copy: nat) returns (table: Option<BootTable>)
      modifies this
      ensures table == env.copy(old(history), copy) && history == Note(old(history), CopyRead(copy, table))
    {
      table := env.copy(history, copy);
      Record(CopyRead(copy, table));
    }

    /** `readPersistedBootTable`: a table is reported only if both parameter partitions hold it. */
    method ReadPersistedBootTable(ghost w: World) returns (table: Option<BootTable>)
      requires w.history == history
      modifies this
      ensures table == ReadCopies(env, w).0 && history == ReadCopies(env, w).1.history
    {
      var primary := ReadParameterCopy(0);
      if primary.None? {
        return None;
      }
      var backup := ReadParameterCopy(1);
      if backup.None? || primary != backup {
        return None;
      }
      return primary;
    }
  }

  class StagingEngine {
    const platform: Platform
    const payloadSha: Sha256.Sha256Context
    var session: Session
    var nextGeneration: uint32

    ghost function View(): World
      reads this, platform, payloadSha
    {
      World(session, payloadSha.message, nextGeneration, platform.history)
    }

    ghost predicate Hashing()
      reads this, payloadSha, payloadSha.state, payloadSha.block
    {
      payloadSha.Valid()
    }

    /** Between calls: the running hash is intact, and the session keeps the invariant of all runs. */
    ghost predicate Valid()
      reads this, platform, payloadSha, payloadSha.state, payloadSha.block
    {
      Hashing() && Inv(View())
    }

    constructor (env: Env)
      ensures Valid() && View() == InitialWorld()
      ensures platform.env == env
      ensures fresh(platform) && fresh(payloadSha) && fresh(payloadSha.state) && fresh(payloadSha.block)
    {
      hide Inv, Handed, Sha256.Fold, Sha256.Whole, Sha256.BitLength;
      platform := new Platform(env);
      payloadSha := new Sha256.Sha256Context();
      session := FreshSession(NoParams(), Idle);
      nextGeneration := 1;
      new;
      InitialInv();
    }

    /** `cancelled` */
    method IsCancelled() returns (cancel: bool)
      modifies platform
      ensures (cancel, View()) == Poll(platform.env, old(View()))
    {
      cancel := false;
      if session.params.hasCancellation {
        cancel := platform.Cancellation();
      }
    }

    /** `elapsedExceeded` */
    method ElapsedExceeded(started: uint32, limit: nat) returns (late: bool)
      modifies platform
      ensures View() == Tick(platform.env, old(View()))
      ensures late == Late(started, platform.env.timeMs(old(platform.history)), limit)
    {
      var now := platform.TimeMs();
      late := (now - started) % 0x1_0000_0000 > limit;
    }

    /** `fail` */
    method Failing(error: Error)
      modifies this`session, platform
      ensures View() == Fail(old(View()), error)
    {
      platform.Record(Closed(error));
      session := session.(
        lastError := error,
        state := if error == CancelledError then Cancelled else Failed,
        ready := session.ready.(sessionGeneration := 0));
    }

    /** `erasePayloadRange` */
    method ErasePayloadRange() returns (error: Error)
      modifies this`session, platform
      ensures Outcome(error, View()) == EraseFrom(platform.env, old(View()), 0)
    {
      hide EraseNext;
      var offset: nat := 0;
      while offset < session.payloadSize
        invariant EraseFrom(platform.env, View(), offset) == EraseFrom(platform.env, old(View()), 0)
        decreases session.payloadSize - offset
      {
        var size;
        error, size := EraseNextBlock(offset);
        if error != Ok {
          return;
        }
        offset := offset + size;
      }
      session := session.(erased := true);
      return Ok;
    }

    method EraseNextBlock(offset: nat) returns (error: Error, size: nat)
      requires offset < session.payloadSize
      modifies platform
      ensures Outcome(error, View()) == EraseNext(platform.env, old(View()), offset)
      ensures size == EraseSize(session, offset)
    {
      hide Late;
      size := session.payloadSize - offset;
      if size > ERASE_BLOCK_SIZE {
        size := ERASE_BLOCK_SIZE;
      }
      var cancel := IsCancelled();
      if cancel {
        return CancelledError, size;
      }
      var started := platform.TimeMs();
      var result := platform.EraseOta(offset, size);
      if result != 0 {
        return EraseError, size;
      }
      var late := ElapsedExceeded(started, FLASH_OPERATION_MAX_MS);
      if late {
        return EraseTimeout, size;
      }
      return Ok, size;
    }

    /** `writePayload` */
    method WriteAllPayload(data: seq<byte>) returns (error: Error)
      requires Hashing()
      modifies this`session, platform, payloadSha, payloadSha.state, payloadSha.block
      ensures Hashing() && Outcome(error, View()) == WritePayload(platform.env, old(View()), data)
    {
      hide WriteBlock, Sha256.Fold, Sha256.Whole, Sha256.BitLength;
      var at: nat := 0;
      while at < |data|
        invariant at <= |data| && Hashing()
        invariant WritePayload(platform.env, View(), data[at..]) == WritePayload(platform.env, old(View()), data)
      {
        var cancel := IsCancelled();
        if cancel {
          return CancelledError;
        }
        var blockSize := if |data| - at < WRITE_BLOCK_SIZE then |data| - at else WRITE_BLOCK_SIZE;
        var block := data[at..at + blockSize];
        assert data[at..][..blockSize] == block && data[at..][blockSize..] == data[at + blockSize..];
        error := WriteOneBlock(block);
        if error != Ok {
          return;
        }
        at := at + blockSize;
      }
      return Ok;
    }

    method WriteOneBlock(block: seq<byte>) returns (error: Error)
      requires Hashing()
      modifies this`session, platform, payloadSha, payloadSha.state, payloadSha.block
      ensures Hashing() && Outcome(error, View()) == WriteBlock(platform.env, old(View()), block)
    {
      hide Late, Crc16.Crc, Sha256.Fold, Sha256.Whole, Sha256.BitLength;
      var start := session.writeOffset;
      var started := platform.TimeMs();
      var result, next := platform.WriteOta(start, block);
      session := session.(writeOffset := next);
      if result != 0 {
        return WriteError;
      }
      if session.writeOffset < start || session.writeOffset - start != |block| {
        return ShortWrite;
      }
      var late := ElapsedExceeded(started, FLASH_OPERATION_MAX_MS);
      if late {
        return WriteTimeout;
      }
      payloadSha.Update(block);
      var crc := Crc16.Update(session.payloadCrc, block);
      session := session.(payloadCrc := crc, payloadWritten := session.payloadWritten + |block|);
      return Ok;
    }

    /** `validateHeader` */
    method ValidatePackageHeader() returns (error: Error)
      modifies this`session, platform
      ensures Outcome(error, View()) == ValidateHeader(platform.env, old(View()))
    {
      hide FormatError, KeyId, Decode, PayloadSize, Sha256.Digest, Late;
      var h := session.header;
      var metadata;
      error, metadata := HeaderChecks.CheckFormat(session.params, h);
      if error != Ok {
        return;
      }
      var keyId := Sha256.Hash(session.params.publicKey);
      if keyId != KeyId(h) {
        return KeyMismatch;
      }
      session := session.(payloadSize := PayloadSize(h), metadata := metadata);
      var headerDigest := Sha256.Hash(h);
      var cancel := IsCancelled();
      if cancel {
        return CancelledError;
      }
      var started := platform.TimeMs();
      var verification := platform.VerifySignature(session.params.publicKey, headerDigest, session.signature);
      if verification == -2 {
        return KeyFormat;
      }
      if verification != 0 {
        return SignatureError;
      }
      var late := ElapsedExceeded(started, SIGNATURE_MAX_MS);
      if late {
        return SignatureTimeout;
      }
      cancel := IsCancelled();
      if cancel {
        return CancelledError;
      }
      if session.params.hasAdmission {
        var accepted := platform.Admission(session.metadata);
        if !accepted {
          return AdmissionRejected;
        }
      }
      session := session.(authenticated := true);
      return Ok;
    }

    /** `acceptPayload` */
    method AcceptPayloadBytes(data: seq<byte>) returns (error: Error)
      requires Hashing() && session.vectorsSize <= VECTOR_SIZE
      modifies this`session, platform, payloadSha, payloadSha.state, payloadSha.block
      ensures Hashing() && Outcome(error, View()) == AcceptPayload(platform.env, old(View()), data)
    {
      hide VectorError, EraseFrom, WritePayload, Sha256.Fold, Sha256.Whole, Sha256.BitLength;
      var rest := data;
      if !session.erased {
        var needed := VECTOR_SIZE - session.vectorsSize;
        var copied := if |data| < needed then |data| else needed;
        session := session.(vectors := Splice(session.vectors, session.vectorsSize, data[..copied]),
                            vectorsSize := session.vectorsSize + copied);
        rest := data[copied..];
        if session.vectorsSize < VECTOR_SIZE {
          return Ok;
        }
        error := VectorError(session.params, session.payloadSize, session.vectors);
        if error != Ok {
          return;
        }
        ghost var w, vectors := View(), session.vectors;
        error := ErasePayloadRange();
        if error != Ok {
          return;
        }
        assert session.vectors == vectors;
        error := WriteAllPayload(session.vectors);
        if error != Ok {
          return;
        }
      }
      error := WriteAllPayload(rest);
    }

    /** `OTAStagingWritePackage` */
    method Write(buffer: Buffer) returns (error: Error)
      requires Valid()
      modifies this`session, platform, payloadSha, payloadSha.state, payloadSha.block
      ensures Valid()
      ensures old(session.state) == Receiving ==> Sane(old(session), 0)
      ensures Outcome(error, View()) == WritePackage(platform.env, old(View()), buffer)
    {
      hide Inv, Handed, Sane, Receive, Poll, Fail, Sha256.Fold, Sha256.Whole, Sha256.BitLength;
      WritePackageKeeps(platform.env, View(), buffer);
      if session.state != Receiving {
        return InvalidState;
      }
      if buffer.Null? && buffer.size > 0 {
        platform.Record(NullArgument);
        Failing(InvalidArgument);
        return InvalidArgument;
      }
      var data := if buffer.Null? then [] else buffer.data;
      if |data| > session.params.packageSize - session.packageReceived {
        platform.Record(Refused(|data|));
        Failing(TrailingData);
        return TrailingData;
      }
      platform.Record(Offered(data));
      var cancel := IsCancelled();
      if cancel {
        Failing(CancelledError);
        return CancelledError;
      }
      RoomFor(session, |data|);
      error := ReceiveBytes(data);
      if error != Ok {
        Failing(error);
      }
    }

    lemma RoomFor(s: Session, size: nat)
      requires Sane(s, 0) && s.packageReceived + size <= s.params.packageSize
      ensures Sane(s, size)
    {
    }

    /** The receive loop of `OTAStagingWritePackage`. */
    method ReceiveBytes(data: seq<byte>) returns (error: Error)
      requires Hashing() && Sane(session, |data|)
      modifies this`session, platform, payloadSha, payloadSha.state, payloadSha.block
      ensures Hashing() && Outcome(error, View()) == Receive(platform.env, old(View()), data)
    {
      hide PartSize, TakePart, Sane, Sha256.Fold, Sha256.Whole, Sha256.BitLength;
      var at: nat := 0;
      while at < |data|
        invariant at <= |data| && Hashing()
        invariant at < |data| ==> Sane(session, |data| - at)
        invariant Receive(platform.env, View(), data[at..]) == Receive(platform.env, old(View()), data)
      {
        ghost var w := View();
        var n := NextPart(|data| - at);
        var part := data[at..at + n];
        assert data[at..][..n] == part && data[at..][n..] == data[at + n..];
        PartSizeStable(session, |data| - at);
        error := TakeOnePart(part);
        if error != Ok {
          return;
        }
        if at + n < |data| {
          TakePartCounts(platform.env, w, part);
          CountedIsSane(w.session, session, n, |data| - at - n);
        }
        at := at + n;
      }
      return Ok;
    }

    lemma CountedIsSane(s: Session, s': Session, n: nat, more: nat)
      requires Sane(s, n + more) && Counted(s, s', n)
      requires s.packageReceived < PAYLOAD_OFFSET
      ensures Sane(s', more)
    {
    }

    method NextPart(size: nat) returns (n: nat)
      requires size > 0 && Sane(session, size)
      ensures n == PartSize(session, size)
    {
      var offset := session.packageReceived;
      if offset < HEADER_SIZE {
        n := HEADER_SIZE - offset;
        if n > size {
          n := size;
        }
      } else if offset < PAYLOAD_OFFSET {
        n := SIGNATURE_SIZE - (offset - HEADER_SIZE);
        if n > size {
          n := size;
        }
      } else {
        var payloadRemaining := session.payloadSize - session.payloadWritten;
        n := if size < payloadRemaining then size else payloadRemaining;
      }
    }

    method TakeOnePart(part: seq<byte>) returns (error: Error)
      requires Hashing() && part != [] && Sane(session, |part|) && PartSize(session, |part|) == |part|
      modifies this`session, platform, payloadSha, payloadSha.state, payloadSha.block
      ensures Hashing() && Outcome(error, View()) == TakePart(platform.env, old(View()), part)
    {
      hide ValidateHeader, AcceptPayload, Sha256.Fold, Sha256.Whole, Sha256.BitLength;
      var offset := session.packageReceived;
      if offset < HEADER_SIZE {
        session := session.(header := Splice(session.header, offset, part), packageReceived := offset + |part|);
        return Ok;
      }
      if offset < PAYLOAD_OFFSET {
        session := session.(signature := Splice(session.signature, offset - HEADER_SIZE, part),
                            packageReceived := offset + |part|);
        if session.packageReceived == PAYLOAD_OFFSET {
          error := ValidatePackageHeader();
          return;
        }
        return Ok;
      }
      error := AcceptPayloadBytes(part);
      if error == Ok {
        session := session.(packageReceived := session.packageReceived + |part|);
      }
    }

    /** `OTAStagingBegin` */
    method BeginSession(size: nat, key: Option<seq<byte>>, hasAdmission: bool, hasCancellation: bool)
      returns (error: Error)
      requires Valid()
      modifies this`session, platform, payloadSha, payloadSha.state
      ensures Valid()
      ensures Outcome(error, View()) == Begin(platform.env, old(View()), size, key, hasAdmission, hasCancellation)
    {
      hide Inv, Handed, Sha256.Fold, Sha256.Whole, Sha256.BitLength;
      BeginKeeps(platform.env, View(), size, key, hasAdmission, hasCancellation);
      if session.state == Receiving || session.state == Verifying || session.state == Activating {
        return Busy;
      }
      if !ValidPublicKey(key) {
        return KeyFormat;
      }
      if size < PAYLOAD_OFFSET + 1 || size > UINT32_MAX {
        return PackageSize;
      }
      var application := platform.GetApplicationPartition();
      if application.None? {
        return PartitionError;
      }
      var ota := platform.GetOtaPartition();
      if ota.None? || application.value.length == 0 || ota.value.length == 0 {
        return PartitionError;
      }
      var p := Params(size, key.value, hasAdmission, hasCancellation, application.value, ota.value);
      session := FreshSession(p, Receiving);
      payloadSha.Init();
      platform.StartLog(Began(p));
      return Ok;
    }

    /** The read-back loop of `OTAStagingFinish`: hash, checksum and descriptor of what the flash delivers. */
    method ReadBackImage() returns (error: Error, digest: seq<byte>, crc: Crc16.Word, descriptor: seq<byte>)
      modifies this`session, platform
      ensures var image := ReadFrom(platform.env, old(View()), 0, [], Zeros(256));
        && Outcome(error, View()) == image.outcome
        && (error == Ok ==>
              && digest == Sha256.Digest(image.bytes) && crc == Crc16.Crc(Crc16.ZERO, image.bytes)
              && descriptor == image.descriptor)
    {
      hide ReadNext, Crc16.Crc, Sha256.Digest, Sha256.Fold, Sha256.Whole, Sha256.BitLength, Grown, SameSession;
      var sha := new Sha256.Sha256Context();
      ghost var bytes: seq<byte> := [];
      ghost var env := platform.env;
      digest, crc, descriptor := [], Crc16.ZERO, Zeros(256);
      assert crc == Crc16.Crc(Crc16.ZERO, bytes) by { CrcOfNothing(crc); }
      var offset: nat := 0;
      while offset < session.payloadSize
        invariant fresh(sha) && fresh(sha.state) && fresh(sha.block) && sha.Valid()
        invariant sha.message == bytes && crc == Crc16.Crc(Crc16.ZERO, bytes) && |descriptor| == 256
        invariant ReadFrom(env, View(), offset, bytes, descriptor) == ReadFrom(env, old(View()), 0, [], Zeros(256))
        decreases session.payloadSize - offset
      {
        var size;
        error, size, crc, descriptor, bytes := ReadNextBlock(sha, offset, crc, descriptor, bytes);
        if error != Ok {
          return error, digest, crc, descriptor;
        }
        offset := offset + size;
      }
      digest := sha.Finish();
      return Ok, digest, crc, descriptor;
    }

    /** One turn of the read-back loop. */
    method ReadNextBlock(sha: Sha256.Sha256Context, offset: nat, crc: Crc16.Word, descriptor: seq<byte>,
                         ghost bytes: seq<byte>)
      returns (error: Error, size: nat, crc': Crc16.Word, descriptor': seq<byte>, ghost bytes': seq<byte>)
      requires sha.Valid() && sha.message == bytes && crc == Crc16.Crc(Crc16.ZERO, bytes)
      requires |descriptor| == 256 && offset < session.payloadSize
      requires sha != payloadSha && sha.state != payloadSha.state && sha.block != payloadSha.block
      modifies this`session, platform, sha, sha.state, sha.block
      ensures size == ReadSize(old(session), offset)
      ensures Image(Outcome(error, View()), bytes', descriptor')
           == ReadNext(platform.env, old(View()), offset, bytes, descriptor)
      ensures error == Ok ==> sha.Valid() && sha.message == bytes' && crc' == Crc16.Crc(Crc16.ZERO, bytes')
    {
      hide Poll, ReadBlock, CopyDescriptor, Crc16.Crc, Sha256.Fold, Sha256.Whole, Sha256.BitLength;
      crc', descriptor', bytes' := crc, descriptor, bytes;
      size := session.payloadSize - offset;
      if size > READ_BACK_BLOCK_SIZE {
        size := READ_BACK_BLOCK_SIZE;
      }
      var cancel := IsCancelled();
      if cancel {
        return CancelledError, size, crc', descriptor', bytes';
      }
      var block;
      error, block := ReadOneBlock(offset, size);
      if error != Ok {
        return;
      }
      sha.Update(block);
      Crc16.Composes(Crc16.ZERO, bytes, block);
      crc' := Crc16.Update(crc, block);
      bytes' := bytes + block;
      descriptor' := PickDescriptor(descriptor, offset, block);
      session := session.(payloadVerified := offset + size);
    }

    method ReadOneBlock(offset: nat, size: nat) returns (error: Error, block: seq<byte>)
      modifies platform
      ensures (Outcome(error, View()), block) == ReadBlock(platform.env, old(View()), offset, size)
    {
      hide Late;
      var started := platform.TimeMs();
      var result, readOffset;
      result, readOffset, block := platform.ReadOta(offset, size);
      if result != 0 || readOffset < offset || readOffset - offset != size {
        return ReadBackError, block;
      }
      var late := ElapsedExceeded(started, FLASH_OPERATION_MAX_MS);
      if late {
        return ReadBackTimeout, block;
      }
      return Ok, block;
    }

    /** The two `memcpy` cases that assemble the descriptor from the blocks. */
    static method PickDescriptor(descriptor: seq<byte>, offset: nat, block: seq<byte>) returns (picked: seq<byte>)
      requires |descriptor| == 256
      ensures picked == CopyDescriptor(descriptor, offset, block)
    {
      picked := descriptor;
      if offset <= DESCRIPTOR_OFFSET && offset + |block| > DESCRIPTOR_OFFSET {
        var start := DESCRIPTOR_OFFSET - offset;
        var copied := |block| - start;
        if copied > DESCRIPTOR_SIZE {
          copied := DESCRIPTOR_SIZE;
        }
        picked := Splice(descriptor, 0, block[start..start + copied]);
      } else if offset > DESCRIPTOR_OFFSET && offset < DESCRIPTOR_OFFSET + DESCRIPTOR_SIZE {
        var destination := offset - DESCRIPTOR_OFFSET;
        var copied := |block|;
        if copied > DESCRIPTOR_SIZE - destination {
          copied := DESCRIPTOR_SIZE - destination;
        }
        picked := Splice(descriptor, destination, block[..copied]);
      }
    }

    /** `OTAStagingFinish` */
    method FinishSession(wanted: bool) returns (error: Error, info: ImageInfo)
      requires Valid()
      modifies this, platform
      ensures Valid()
      ensures Outcome(error, View()) == Finish(platform.env, old(View()), wanted)
      ensures error == Ok ==> info == session.ready
    {
      hide Inv, Handed, Fail, Poll, Verify, Sha256.Fold, Sha256.Whole, Sha256.BitLength;
      FinishKeeps(platform.env, View(), wanted);
      info := session.ready;
      if session.state != Receiving {
        return InvalidState, info;
      }
      if !wanted {
        platform.Record(NullArgument);
        Failing(InvalidArgument);
        return InvalidArgument, info;
      }
      if session.packageReceived != session.params.packageSize || !session.authenticated
         || session.payloadWritten != session.payloadSize {
        Failing(Incomplete);
        return Incomplete, info;
      }
      var cancel := IsCancelled();
      if cancel {
        Failing(CancelledError);
        return CancelledError, info;
      }
      session := session.(state := Verifying);
      error := VerifyImage();
      return error, session.ready;
    }

    /** The rest of `OTAStagingFinish`, in the Verifying state. */
    method VerifyImage() returns (error: Error)
      requires Hashing()
      modifies this`session, this`nextGeneration, platform
      ensures Outcome(error, View()) == Verify(platform.env, old(View()))
    {
      hide Fail, ReadFrom, Judge, Issue, Sha256.Digest, Crc16.Crc, Sha256.Fold, Sha256.Whole, Sha256.BitLength;
      var streaming := new Sha256.Sha256Context.Copy(payloadSha);
      var streamingDigest := streaming.Finish();
      if streamingDigest != session.metadata.sha256 {
        Failing(HashMismatch);
        return HashMismatch;
      }
      var digest, crc, descriptor;
      error, digest, crc, descriptor := ReadBackImage();
      if error == Ok {
        error := Compare(digest, crc, descriptor);
      }
      if error != Ok {
        Failing(error);
        return error;
      }
      Publish(crc, digest);
      return Ok;
    }

    method Compare(digest: seq<byte>, crc: Crc16.Word, descriptor: seq<byte>) returns (error: Error)
      ensures forall bytes: seq<byte> | digest == Sha256.Digest(bytes) && crc == Crc16.Crc(Crc16.ZERO, bytes) ::
        error == Judge(session, bytes, descriptor)
    {
      hide Sha256.Digest, Crc16.Crc;
      if digest != session.metadata.sha256 {
        return ReadBackHashMismatch;
      }
      if crc != session.payloadCrc {
        return ReadBackCrcMismatch;
      }
      if descriptor != session.header[64..320] {
        return DescriptorMismatch;
      }
      return Ok;
    }

    method Publish(crc: Crc16.Word, digest: seq<byte>)
      modifies this`session, this`nextGeneration, platform
      ensures View() == Issue(old(View()), crc, digest)
    {
      var info := ImageInfo(nextGeneration, session.payloadSize, crc, digest, session.metadata);
      nextGeneration := (nextGeneration + 1) % 0x1_0000_0000;
      if nextGeneration == 0 {
        nextGeneration := 1;
      }
      platform.Record(Issued(info));
      session := session.(ready := info, state := Ready, lastError := Ok);
    }

    /** `OTAStagingActivate` */
    method ActivateImage(generation: uint32, sha256: Option<seq<byte>>) returns (error: Error)
      requires Valid()
      modifies this`session, platform
      ensures Valid()
      ensures Outcome(error, View()) == Activate(platform.env, old(View()), generation, sha256)
    {
      hide Inv, Handed, Install, Sha256.Fold, Sha256.Whole, Sha256.BitLength;
      ActivateKeeps(platform.env, View(), generation, sha256);
      if session.state != Ready {
        return InvalidState;
      }
      if sha256.None? || generation == 0 || generation != session.ready.sessionGeneration
         || sha256.value != session.ready.sha256 {
        return InvalidArgument;
      }
      platform.Record(Consumed(generation, sha256.value));
      session := session.(state := Activating, ready := session.ready.(sessionGeneration := 0));
      error := InstallImage();
    }

    /** The rest of `OTAStagingActivate`, once the token has been consumed. */
    method InstallImage() returns (error: Error)
      modifies this`session, platform
      ensures Outcome(error, View()) == Install(platform.env, old(View()))
    {
      hide Fail, Commit, Late, Grown, OnlyHistory, SameSession;
      var started := platform.TimeMs();
      var previous := platform.ReadBootTable();
      if previous.None? {
        Failing(ActivationError);
        return ActivationError;
      }
      var late := ElapsedExceeded(started, ACTIVATION_MAX_MS);
      if late {
        Failing(ActivationError);
        return ActivationError;
      }
      var candidate := BootTable(session.params.ota.start, session.payloadSize, Zeros(8), 65, 85,
                                 session.ready.crc16, Zeros(4));
      var verified := CommitTable(candidate);
      if verified {
        session := session.(state := Activated, lastError := Ok);
        return Ok;
      }
      var restored := CommitTable(previous.value);
      error := if restored then ActivationError else ActivationUncertain;
      Failing(error);
    }

    /** One `writeBootTable` with its read-back; the result of the write itself is not looked at. */
    method CommitTable(table: BootTable) returns (verified: bool)
      modifies platform
      ensures (verified, View()) == Commit(platform.env, old(View()), table)
    {
      hide Late, ReadCopies, Grown;
      var started := platform.TimeMs();
      platform.WriteBootTable(table);
      var writeLate := ElapsedExceeded(started, ACTIVATION_MAX_MS);
      started := platform.TimeMs();
      var persisted := platform.ReadPersistedBootTable(View());
      var readLate := ElapsedExceeded(started, ACTIVATION_MAX_MS);
      verified := !writeLate && persisted.Some? && !readLate && persisted.value == table;
    }

    /** `OTAStagingAbort` */
    method AbortSession() returns (error: Error)
      requires Valid()
      modifies this`session, platform
      ensures Valid()
      ensures Outcome(error, View()) == Abort(old(View()))
    {
      hide Inv, Handed, Sha256.Fold, Sha256.Whole, Sha256.BitLength;
      AbortKeeps(View());
      if session.state != Receiving && session.state != Verifying && session.state != Ready {
        return InvalidState;
      }
      platform.Record(Aborted);
      session := session.(
        ready := session.ready.(sessionGeneration := 0), state := Cancelled, lastError := CancelledError);
      return Ok;
    }

    /** Any sequence of calls ends where the model's runs end. */
    method Execute(calls: seq<Call>)
      requires Valid()
      modifies this, platform, payloadSha, payloadSha.state, payloadSha.block
      ensures Valid() && View() == Run(platform.env, old(View()), calls)
    {
      hide Inv, Handed, Begin, WritePackage, Finish, Activate, Abort, Sane, Sha256.Fold, Sha256.Whole, Sha256.BitLength;
      for i := 0 to |calls|
        invariant Valid()
        invariant Run(platform.env, View(), calls[i..]) == Run(platform.env, old(View()), calls)
      {
        var error, info;
        assert calls[i..][0] == calls[i] && calls[i..][1..] == calls[i + 1..];
        match calls[i]
        case CallBegin(size, key, hasAdmission, hasCancellation) =>
          error := BeginSession(size, key, hasAdmission, hasCancellation);
        case CallWritePackage(buffer) => error := Write(buffer);
        case CallFinish(wanted) => error, info := FinishSession(wanted);
        case CallActivate(generation, sha256) => error := ActivateImage(generation, sha256);
        case CallAbort => error := AbortSession();
      }
    }
  }
}
