/**
 * The staging engine as functions of its state and of an arbitrary environment.
 *
 * Everything the engine cannot see (clock, flash, signature check, boot table, callbacks) answers through an
 * `Env`, whose answers may depend on the whole history. A claim about every `Env` is a claim about every run.
 */
module StagingModel {
  import opened Bytes
  import opened StagingTypes
  import opened PackageHeader
  import Crc16
  import Sha256

  type Signature = s: seq<byte> | |s| == 64 witness Zeros(64)
  type Vectors = s: seq<byte> | |s| == 8 witness Zeros(8)

  /** What can be observed from outside, in order. */
  datatype Event =
    | Began(params: Params)
    | Offered(data: seq<byte>)
    | Refused(size: nat)
    | NullArgument
    | Polled(cancel: bool)
    | Ticked(ms: uint32)
    | Verified(key: seq<byte>, digest: seq<byte>, signature: seq<byte>, result: int)
    | Admitted(metadata: Metadata, accepted: bool)
    | Erased(offset: nat, size: nat, result: int)
    | Wrote(offset: nat, data: seq<byte>, result: int, next: uint32)
    | ReadBack(offset: nat, data: seq<byte>, result: int, next: uint32)
    | Issued(info: ImageInfo)
    | Closed(error: Error)
    | Aborted
    | Consumed(generation: uint32, sha256: seq<byte>)
    | TableRead(found: Option<BootTable>)
    | TableWritten(table: BootTable, result: int)
    | CopyRead(copy: nat, found: Option<BootTable>)

  /** The logs of the earlier sessions, that of the current one, and the answers to all partition lookups. */
  datatype History = History(past: seq<seq<Event>>, log: seq<Event>, lookups: seq<Option<Partition>>)

  datatype Env = Env(
    application: History -> Option<Partition>,
    ota: History -> Option<Partition>,
    cancels: History -> bool,
    admits: (History, Metadata) -> bool,
    timeMs: History -> uint32,
    verifies: (History, seq<byte>, seq<byte>, seq<byte>) -> int,
    erases: (History, nat, nat) -> int,
    writes: (History, nat, seq<byte>) -> (int, uint32),
    fetches: (History, nat, nat) -> (int, uint32),
    delivers: (History, nat) -> byte,
    table: History -> Option<BootTable>,
    stores: (History, BootTable) -> int,
    copy: (History, nat) -> Option<BootTable>)

  datatype Session = Session(
    params: Params,
    state: State,
    lastError: Error,
    packageReceived: nat,
    payloadWritten: nat,
    payloadVerified: nat,
    payloadSize: uint32,
    writeOffset: uint32,
    header: Header,
    signature: Signature,
    vectors: Vectors,
    vectorsSize: nat,
    authenticated: bool,
    erased: bool,
    payloadCrc: Crc16.Word,
    metadata: Metadata,
    ready: ImageInfo)

  function NoParams(): Params {
    Params(0, Zeros(91), false, false, Partition(0, 0), Partition(0, 0))
  }

  /** `memset(&session, 0, sizeof(session))` and the parameters of the new session. */
  function FreshSession(p: Params, state: State): Session {
    Session(p, state, Ok, 0, 0, 0, 0, 0, Zeros(320), Zeros(64), Zeros(8), 0, false, false,
            Crc16.ZERO, ZeroMetadata(), ZeroInfo())
  }

  /** `hashed` is what the running payload hash has absorbed. */
  datatype World = World(session: Session, hashed: seq<byte>, nextGeneration: uint32, history: History)

  function InitialWorld(): World {
    World(FreshSession(NoParams(), Idle), [], 1, History([], [], []))
  }

  datatype Outcome = Outcome(error: Error, world: World)

  function Note(h: History, e: Event): History { h.(log := h.log + [e]) }

  function LookedUp(h: History, found: Option<Partition>): History { h.(lookups := h.lookups + [found]) }

  function NoteIn(w: World, e: Event): World { w.(history := Note(w.history, e)) }

  /** The history has grown, in the same session. */
  predicate Grown(h: History, h': History) { h'.past == h.past && h'.lookups == h.lookups && h.log <= h'.log }

  lemma NoteGrows(h: History, e: Event)
    ensures Grown(h, Note(h, e))
  {
  }

  lemma GrownTwice(h: History, h': History, h'': History)
    requires Grown(h, h') && Grown(h', h'')
    ensures Grown(h, h'')
  {
  }

  /** Nothing but the history has moved, and it has grown. */
  predicate OnlyHistory(w: World, w': World) {
    w'.session == w.session && w'.hashed == w.hashed && w'.nextGeneration == w.nextGeneration
    && Grown(w.history, w'.history)
  }

  /** The parameters of the session, the generation counter and the earlier logs have not moved. */
  predicate SameSession(w: World, w': World) {
    w'.session.params == w.session.params && w'.nextGeneration == w.nextGeneration
    && Grown(w.history, w'.history)
  }

  // ----- polls, clock and the three timed operations

  function Poll(env: Env, w: World): (r: (bool, World))
    ensures OnlyHistory(w, r.1)
  {
    if !w.session.params.hasCancellation then (false, w)
    else (env.cancels(w.history), NoteIn(w, Polled(env.cancels(w.history))))
  }

  function Tick(env: Env, w: World): (r: World)
    ensures OnlyHistory(w, r)
  {
    NoteIn(w, Ticked(env.timeMs(w.history)))
  }

  /** `elapsedExceeded`: unsigned subtraction, so that the clock may wrap. */
  predicate Late(started: uint32, now: uint32, limit: nat): (late: bool)
    ensures late <==> Milliseconds(started, now) > limit
  {
    (now - started) % 0x1_0000_0000 > limit
  }

  /** The time between two readings of a clock that wraps around after 2^32 milliseconds. */
  function Milliseconds(from: uint32, to: uint32): (elapsed: nat)
    ensures elapsed < 0x1_0000_0000
  {
    if from <= to then to - from else to + (0x1_0000_0000 - from)
  }

  /** A wait of `d` milliseconds, started at any time, is measured as `d`, and is late exactly above the limit. */
  lemma ClockMeasures(s: nat, d: nat, limit: nat)
    requires d < 0x1_0000_0000
    ensures Milliseconds(s % 0x1_0000_0000, (s + d) % 0x1_0000_0000) == d
    ensures Late(s % 0x1_0000_0000, (s + d) % 0x1_0000_0000, limit) <==> d > limit
  {
    var q, r := s / 0x1_0000_0000, s % 0x1_0000_0000;
    assert s == 0x1_0000_0000 * q + r;
    if r + d < 0x1_0000_0000 {
      assert (s + d) / 0x1_0000_0000 == q;
    } else {
      assert (s + d) / 0x1_0000_0000 == q + 1;
    }
  }

  function Fail(w: World, error: Error): (r: World)
    ensures Grown(w.history, r.history)
  {
    NoteIn(w, Closed(error)).(session := w.session.(
      lastError := error,
      state := if error == CancelledError then Cancelled else Failed,
      ready := w.session.ready.(sessionGeneration := 0)))
  }

  function EraseBlock(env: Env, w: World, offset: nat, size: nat): (r: Outcome)
    ensures OnlyHistory(w, r.world)
  {
    var w1 := Tick(env, w);
    var result := env.erases(w1.history, offset, size);
    var w2 := NoteIn(w1, Erased(offset, size, result));
    if result != 0 then Outcome(EraseError, w2)
    else
      var w3 := Tick(env, w2);
      if Late(env.timeMs(w.history), env.timeMs(w2.history), FLASH_OPERATION_MAX_MS) then Outcome(EraseTimeout, w3)
      else Outcome(Ok, w3)
  }

  function EraseSize(s: Session, offset: nat): (size: int)
    requires offset < s.payloadSize
    ensures 0 < size <= s.payloadSize - offset
  {
    Min(s.payloadSize - offset, ERASE_BLOCK_SIZE)
  }

  /** One turn of the erase loop. */
  function EraseNext(env: Env, w: World, offset: nat): (r: Outcome)
    requires offset < w.session.payloadSize
    ensures OnlyHistory(w, r.world)
  {
    var (cancelled, w1) := Poll(env, w);
    if cancelled then Outcome(CancelledError, w1) else EraseBlock(env, w1, offset, EraseSize(w.session, offset))
  }

  /** The erase loop from `offset` on. */
  function EraseFrom(env: Env, w: World, offset: nat): (r: Outcome)
    ensures OnlyHistory(w, r.world) || r.world.session == w.session.(erased := true)
    ensures r.error == Ok ==> r.world.session == w.session.(erased := true)
    ensures SameSession(w, r.world) && r.world.hashed == w.hashed
    decreases w.session.payloadSize - offset
  {
    hide EraseNext;
    if offset >= w.session.payloadSize then Outcome(Ok, w.(session := w.session.(erased := true)))
    else
      var step := EraseNext(env, w, offset);
      if step.error != Ok then step else EraseFrom(env, step.world, offset + EraseSize(w.session, offset))
  }

  function WriteBlock(env: Env, w: World, data: seq<byte>): (r: Outcome)
    ensures SameSession(w, r.world)
  {
    var start := w.session.writeOffset;
    var w1 := Tick(env, w);
    var (result, next) := env.writes(w1.history, start, data);
    var w2 := NoteIn(w1, Wrote(start, data, result, next)).(session := w.session.(writeOffset := next));
    if result != 0 then Outcome(WriteError, w2)
    else if next < start || next - start != |data| then Outcome(ShortWrite, w2)
    else
      var w3 := Tick(env, w2);
      if Late(env.timeMs(w.history), env.timeMs(w2.history), FLASH_OPERATION_MAX_MS) then Outcome(WriteTimeout, w3)
      else
        Outcome(Ok, w3.(
          hashed := w.hashed + data,
          session := w3.session.(
            payloadCrc := Crc16.Crc(w.session.payloadCrc, data),
            payloadWritten := w.session.payloadWritten + |data|)))
  }

  function WritePayload(env: Env, w: World, data: seq<byte>): (r: Outcome)
    ensures SameSession(w, r.world)
    decreases |data|
  {
    if data == [] then Outcome(Ok, w)
    else
      var (cancelled, w1) := Poll(env, w);
      if cancelled then Outcome(CancelledError, w1)
      else
        var size := Min(|data|, WRITE_BLOCK_SIZE);
        var step := WriteBlock(env, w1, data[..size]);
        if step.error != Ok then step
        else WritePayload(env, step.world, data[size..])
  }

  // ----- the header and the vector table

  function VectorError(p: Params, payloadSize: uint32, v: Vectors): (error: Error)
    ensures error == Ok || error == VectorTable
  {
    var stackPointer, resetVector := Le32(v[..4]), Le32(v[4..8]);
    if stackPointer % 8 != 0 || stackPointer <= RAM_START_EXCLUSIVE || stackPointer > RAM_END_INCLUSIVE
       || resetVector % 2 == 0 then VectorTable
    else
      var resetHandler := resetVector - 1;
      if resetHandler < p.application.start || payloadSize < 2 || resetHandler > UINT32_MAX - 2
         || p.application.start > UINT32_MAX - payloadSize
         || (resetHandler + 2) % 0x1_0000_0000 > (p.application.start + payloadSize) % 0x1_0000_0000
      then VectorTable
      else Ok
  }

  /** The checks that involve the platform, after the header has passed its own. */
  function Authenticate(env: Env, w: World): (r: Outcome)
    ensures SameSession(w, r.world)
    ensures r.error == Ok ==> r.world.session == w.session.(authenticated := true) && r.world.hashed == w.hashed
  {
    hide Late, Admit, Poll, Sha256.Digest;
    var p := w.session.params;
    var (cancelled, w1) := Poll(env, w);
    if cancelled then Outcome(CancelledError, w1)
    else
      var w2 := Tick(env, w1);
      var digest := Sha256.Digest(w.session.header);
      var result := env.verifies(w2.history, p.publicKey, digest, w.session.signature);
      var w3 := NoteIn(w2, Verified(p.publicKey, digest, w.session.signature, result));
      if result == -2 then Outcome(KeyFormat, w3)
      else if result != 0 then Outcome(SignatureError, w3)
      else
        var w4 := Tick(env, w3);
        if Late(env.timeMs(w1.history), env.timeMs(w3.history), SIGNATURE_MAX_MS) then Outcome(SignatureTimeout, w4)
        else Admit(env, w4)
  }

  function Admit(env: Env, w: World): (r: Outcome)
    ensures SameSession(w, r.world)
    ensures r.error == Ok ==> r.world.session == w.session.(authenticated := true) && r.world.hashed == w.hashed
  {
    var (cancelled, w1) := Poll(env, w);
    if cancelled then Outcome(CancelledError, w1)
    else if w.session.params.hasAdmission then
      var accepted := env.admits(w1.history, w.session.metadata);
      var w2 := NoteIn(w1, Admitted(w.session.metadata, accepted));
      if !accepted then Outcome(AdmissionRejected, w2)
      else Outcome(Ok, w2.(session := w2.session.(authenticated := true)))
    else Outcome(Ok, w1.(session := w1.session.(authenticated := true)))
  }

  function ValidateHeader(env: Env, w: World): (r: Outcome)
    ensures SameSession(w, r.world)
    ensures r.error == Ok ==>
      && HeaderError(w.session.params, w.session.header) == Ok && r.world.hashed == w.hashed
      && PayloadSize(w.session.header) + PAYLOAD_OFFSET == w.session.params.packageSize
      && r.world.session == w.session.(payloadSize := PayloadSize(w.session.header),
                                       metadata := Decode(w.session.header), authenticated := true)
  {
    hide HeaderError, FormatError, Decode, PayloadSize, Authenticate;
    var h := w.session.header;
    var error := HeaderError(w.session.params, h);
    if error != Ok then Outcome(error, w)
    else Authenticate(env, w.(session := w.session.(payloadSize := PayloadSize(h), metadata := Decode(h))))
  }

  // ----- receiving the package

  function AcceptPayload(env: Env, w: World, data: seq<byte>): (r: Outcome)
    requires w.session.vectorsSize <= VECTOR_SIZE
    ensures SameSession(w, r.world)
  {
    if w.session.erased then WritePayload(env, w, data)
    else
      var copied := Min(|data|, VECTOR_SIZE - w.session.vectorsSize);
      var w1 := w.(session := w.session.(
        vectors := Splice(w.session.vectors, w.session.vectorsSize, data[..copied]),
        vectorsSize := w.session.vectorsSize + copied));
      if w1.session.vectorsSize < VECTOR_SIZE then Outcome(Ok, w1)
      else StartImage(env, w1, data[copied..])
  }

  function StartImage(env: Env, w: World, rest: seq<byte>): (r: Outcome)
    ensures SameSession(w, r.world)
  {
    var error := VectorError(w.session.params, w.session.payloadSize, w.session.vectors);
    if error != Ok then Outcome(error, w)
    else
      var erase := EraseFrom(env, w, 0);
      if erase.error != Ok then erase
      else
        var first := WritePayload(env, erase.world, w.session.vectors);
        if first.error != Ok then first
        else WritePayload(env, first.world, rest)
  }

  /** A receiving session has room for `size` more bytes, and its counters agree. */
  predicate Sane(s: Session, size: nat) {
    && s.packageReceived + size <= s.params.packageSize
    && s.vectorsSize <= VECTOR_SIZE
    && (s.packageReceived >= PAYLOAD_OFFSET ==>
          && s.payloadSize + PAYLOAD_OFFSET == s.params.packageSize
          && s.payloadWritten + PAYLOAD_OFFSET <= s.packageReceived)
    && (s.packageReceived < PAYLOAD_OFFSET ==> s.payloadWritten == 0)
  }

  function Advance(s: Session, count: nat): Session { s.(packageReceived := s.packageReceived + count) }

  function TakeHeader(w: World, part: seq<byte>): World
    requires w.session.packageReceived + |part| <= HEADER_SIZE
  {
    w.(session := Advance(w.session, |part|).(header := Splice(w.session.header, w.session.packageReceived, part)))
  }

  function TakeSignature(w: World, part: seq<byte>): World
    requires HEADER_SIZE <= w.session.packageReceived && w.session.packageReceived + |part| <= PAYLOAD_OFFSET
  {
    w.(session := Advance(w.session, |part|).(
      signature := Splice(w.session.signature, w.session.packageReceived - HEADER_SIZE, part)))
  }

  /** What is left of the header, the signature or the payload, as far as `data` goes. */
  function PartSize(s: Session, size: nat): (n: int)
    requires Sane(s, size)
    ensures size > 0 ==> 0 < n <= size
    ensures s.packageReceived >= PAYLOAD_OFFSET ==> n == size
  {
    if s.packageReceived < HEADER_SIZE then Min(size, HEADER_SIZE - s.packageReceived)
    else if s.packageReceived < PAYLOAD_OFFSET then Min(size, PAYLOAD_OFFSET - s.packageReceived)
    else Min(size, s.payloadSize - s.payloadWritten)
  }

  lemma PartSizeStable(s: Session, size: nat)
    requires size > 0 && Sane(s, size)
    ensures var n := PartSize(s, size); Sane(s, n) && PartSize(s, n) == n
  {
  }

  /** The counters after header or signature bytes have been taken. */
  predicate Counted(s: Session, s': Session, count: nat) {
    && s'.params == s.params
    && s'.packageReceived == s.packageReceived + count
    && s'.payloadWritten == s.payloadWritten
    && s'.vectorsSize == s.vectorsSize
    && (s'.packageReceived >= PAYLOAD_OFFSET ==> s'.payloadSize + PAYLOAD_OFFSET == s.params.packageSize)
  }

  function TakeSignaturePart(env: Env, w: World, part: seq<byte>): (r: Outcome)
    requires HEADER_SIZE <= w.session.packageReceived && w.session.packageReceived + |part| <= PAYLOAD_OFFSET
    ensures SameSession(w, r.world)
  {
    hide HeaderError, FormatError, Decode, PayloadSize, ValidateHeader;
    var w1 := TakeSignature(w, part);
    if w1.session.packageReceived == PAYLOAD_OFFSET then ValidateHeader(env, w1) else Outcome(Ok, w1)
  }

  /** One turn of the receive loop. */
  function TakePart(env: Env, w: World, part: seq<byte>): (r: Outcome)
    requires part != [] && Sane(w.session, |part|) && PartSize(w.session, |part|) == |part|
    ensures SameSession(w, r.world)
  {
    hide AcceptPayload, TakeSignaturePart;
    if w.session.packageReceived < HEADER_SIZE then Outcome(Ok, TakeHeader(w, part))
    else if w.session.packageReceived < PAYLOAD_OFFSET then TakeSignaturePart(env, w, part)
    else
      var step := AcceptPayload(env, w, part);
      if step.error != Ok then step
      else Outcome(Ok, step.world.(session := Advance(step.world.session, |part|)))
  }

  lemma TakePartCounts(env: Env, w: World, part: seq<byte>)
    requires part != [] && Sane(w.session, |part|) && PartSize(w.session, |part|) == |part|
    requires w.session.packageReceived < PAYLOAD_OFFSET
    requires TakePart(env, w, part).error == Ok
    ensures Counted(w.session, TakePart(env, w, part).world.session, |part|)
  {
    hide HeaderError, FormatError, Decode, PayloadSize, ValidateHeader, AcceptPayload;
  }

  /** The receive loop. */
  function Receive(env: Env, w: World, data: seq<byte>): (r: Outcome)
    requires data != [] ==> Sane(w.session, |data|)
    ensures SameSession(w, r.world)
    decreases |data|
  {
    if data == [] then Outcome(Ok, w)
    else
      var n := PartSize(w.session, |data|);
      var step := TakePart(env, w, data[..n]);
      assert step.error == Ok && n < |data| ==> Sane(step.world.session, |data| - n) by {
        if step.error == Ok && n < |data| { TakePartCounts(env, w, data[..n]); }
      }
      if step.error != Ok then step else Receive(env, step.world, data[n..])
  }

  // ----- the public operations

  /** A caller's pointer and length. */
  datatype Buffer = Null(size: nat) | Bytes(data: seq<byte>)

  /** The DER prefix of an uncompressed P-256 key. */
  const PUBLIC_KEY_PREFIX: seq<byte> := [
    0x30, 0x59, 0x30, 0x13, 0x06, 0x07, 0x2A, 0x86, 0x48, 0xCE, 0x3D, 0x02, 0x01, 0x06, 0x08, 0x2A, 0x86, 0x48,
    0xCE, 0x3D, 0x03, 0x01, 0x07, 0x03, 0x42, 0x00, 0x04]

  predicate ValidPublicKey(key: Option<seq<byte>>) {
    key.Some? && |key.value| == PUBLIC_KEY_SIZE && key.value[..27] == PUBLIC_KEY_PREFIX
  }

  predicate Usable(partition: Option<Partition>) { partition.Some? && partition.value.length != 0 }

  function Begin(env: Env, w: World, size: nat, key: Option<seq<byte>>, hasAdmission: bool, hasCancellation: bool):
    (r: Outcome)
  {
    if w.session.state in {Receiving, Verifying, Activating} then Outcome(Busy, w)
    else if !ValidPublicKey(key) then Outcome(KeyFormat, w)
    else if size < PAYLOAD_OFFSET + 1 || size > UINT32_MAX then Outcome(PackageSize, w)
    else
      var application := env.application(w.history);
      var h1 := LookedUp(w.history, application);
      if application.None? then Outcome(PartitionError, w.(history := h1))
      else
        var ota := env.ota(h1);
        var h2 := LookedUp(h1, ota);
        if !Usable(application) || !Usable(ota) then Outcome(PartitionError, w.(history := h2))
        else
          var p := Params(size, key.value, hasAdmission, hasCancellation, application.value, ota.value);
          Outcome(Ok, World(FreshSession(p, Receiving), [], w.nextGeneration,
                            History(w.history.past + [w.history.log], [Began(p)], h2.lookups)))
  }

  function WritePackage(env: Env, w: World, buffer: Buffer): (r: Outcome)
    requires w.session.state == Receiving ==> Sane(w.session, 0)
  {
    if w.session.state != Receiving then Outcome(InvalidState, w)
    else if buffer.Null? && buffer.size > 0 then Outcome(InvalidArgument, Fail(NoteIn(w, NullArgument),
        InvalidArgument))
    else
      var data := if buffer.Null? then [] else buffer.data;
      if |data| > w.session.params.packageSize - w.session.packageReceived then
        Outcome(TrailingData, Fail(NoteIn(w, Refused(|data|)), TrailingData))
      else TakeChunk(env, NoteIn(w, Offered(data)), data)
  }

  function TakeChunk(env: Env, w: World, data: seq<byte>): (r: Outcome)
    requires Sane(w.session, |data|)
  {
    var (cancelled, w1) := Poll(env, w);
    if cancelled then Outcome(CancelledError, Fail(w1, CancelledError))
    else
      var step := Receive(env, w1, data);
      if step.error != Ok then Outcome(step.error, Fail(step.world, step.error)) else step
  }

  // ----- read-back

  /** The bytes a read of the OTA partition delivers. */
  function Delivered(env: Env, h: History, offset: nat, size: nat): (block: seq<byte>)
    ensures |block| == size
  {
    seq<byte>(size, i requires 0 <= i < size => env.delivers(h, offset + i))
  }

  /** How a block read at `offset` is copied into the descriptor buffer. */
  function CopyDescriptor(descriptor: seq<byte>, offset: nat, block: seq<byte>): (d: seq<byte>)
    requires |descriptor| == DESCRIPTOR_SIZE
    ensures |d| == DESCRIPTOR_SIZE
  {
    if offset <= DESCRIPTOR_OFFSET < offset + |block| then
      var start := DESCRIPTOR_OFFSET - offset;
      var copied := Min(|block| - start, DESCRIPTOR_SIZE);
      Splice(descriptor, 0, block[start..start + copied])
    else if DESCRIPTOR_OFFSET < offset < DESCRIPTOR_OFFSET + DESCRIPTOR_SIZE then
      var destination := offset - DESCRIPTOR_OFFSET;
      var copied := Min(|block|, DESCRIPTOR_SIZE - destination);
      Splice(descriptor, destination, block[..copied])
    else descriptor
  }

  /** The outcome of the read-back loop: the bytes read and the descriptor copied out of them. */
  datatype Image = Image(outcome: Outcome, bytes: seq<byte>, descriptor: seq<byte>)

  function ReadBlock(env: Env, w: World, offset: nat, size: nat): (r: (Outcome, seq<byte>))
    ensures OnlyHistory(w, r.0.world) && |r.1| == size
  {
    var w1 := Tick(env, w);
    var (result, next) := env.fetches(w1.history, offset, size);
    var block := Delivered(env, w1.history, offset, size);
    var w2 := NoteIn(w1, ReadBack(offset, block, result, next));
    if result != 0 || next < offset || next - offset != size then (Outcome(ReadBackError, w2), block)
    else
      var w3 := Tick(env, w2);
      if Late(env.timeMs(w.history), env.timeMs(w2.history), FLASH_OPERATION_MAX_MS) then
        (Outcome(ReadBackTimeout, w3), block)
      else (Outcome(Ok, w3), block)
  }

  function ReadSize(s: Session, offset: nat): (size: int)
    requires offset < s.payloadSize
    ensures 0 < size <= s.payloadSize - offset
  {
    Min(s.payloadSize - offset, READ_BACK_BLOCK_SIZE)
  }

  /** One turn of the read-back loop. */
  function ReadNext(env: Env, w: World, offset: nat, bytes: seq<byte>, descriptor: seq<byte>): (r: Image)
    requires |descriptor| == DESCRIPTOR_SIZE && offset < w.session.payloadSize
    ensures SameSession(w, r.outcome.world) && |r.descriptor| == DESCRIPTOR_SIZE
    ensures r.outcome.world.session == w.session.(payloadVerified := r.outcome.world.session.payloadVerified)
    ensures r.outcome.world.hashed == w.hashed
  {
    hide CopyDescriptor, ReadBlock;
    var (cancelled, w1) := Poll(env, w);
    if cancelled then Image(Outcome(CancelledError, w1), bytes, descriptor)
    else
      var size := ReadSize(w.session, offset);
      var (step, block) := ReadBlock(env, w1, offset, size);
      if step.error != Ok then Image(step, bytes, descriptor)
      else
        Image(step.(world := step.world.(session := step.world.session.(payloadVerified := offset + size))),
              bytes + block, CopyDescriptor(descriptor, offset, block))
  }

  function ReadFrom(env: Env, w: World, offset: nat, bytes: seq<byte>, descriptor: seq<byte>): (r: Image)
    requires |descriptor| == DESCRIPTOR_SIZE
    ensures SameSession(w, r.outcome.world) && |r.descriptor| == DESCRIPTOR_SIZE
    decreases w.session.payloadSize - offset
  {
    hide ReadNext;
    if offset >= w.session.payloadSize then Image(Outcome(Ok, w), bytes, descriptor)
    else
      var step := ReadNext(env, w, offset, bytes, descriptor);
      if step.outcome.error != Ok then step
      else ReadFrom(env, step.outcome.world, offset + ReadSize(w.session, offset), step.bytes, step.descriptor)
  }

  function NextGeneration(g: uint32): uint32 {
    var next := (g + 1) % 0x1_0000_0000;
    if next == 0 then 1 else next
  }

  function Issue(w: World, crc: Crc16.Word, digest: seq<byte>): World {
    var info := ImageInfo(w.nextGeneration, w.session.payloadSize, crc, digest, w.session.metadata);
    NoteIn(w, Issued(info)).(
      nextGeneration := NextGeneration(w.nextGeneration),
      session := w.session.(ready := info, state := Ready, lastError := Ok))
  }

  /** The comparisons after the read-back. */
  function Judge(s: Session, bytes: seq<byte>, descriptor: seq<byte>): Error {
    if Sha256.Digest(bytes) != s.metadata.sha256 then ReadBackHashMismatch
    else if Crc16.Crc(Crc16.ZERO, bytes) != s.payloadCrc then ReadBackCrcMismatch
    else if descriptor != Descriptor(s.header) then DescriptorMismatch
    else Ok
  }

  function Verify(env: Env, w: World): (r: Outcome) {
    if Sha256.Digest(w.hashed) != w.session.metadata.sha256 then Outcome(HashMismatch, Fail(w, HashMismatch))
    else
      var image := ReadFrom(env, w, 0, [], Zeros(256));
      var w1 := image.outcome.world;
      var error := if image.outcome.error != Ok then image.outcome.error
                   else Judge(w1.session, image.bytes, image.descriptor);
      if error != Ok then Outcome(error, Fail(w1, error))
      else Outcome(Ok, Issue(w1, Crc16.Crc(Crc16.ZERO, image.bytes), Sha256.Digest(image.bytes)))
  }

  function Finish(env: Env, w: World, wanted: bool): (r: Outcome) {
    if w.session.state != Receiving then Outcome(InvalidState, w)
    else if !wanted then Outcome(InvalidArgument, Fail(NoteIn(w, NullArgument), InvalidArgument))
    else if w.session.packageReceived != w.session.params.packageSize || !w.session.authenticated
            || w.session.payloadWritten != w.session.payloadSize then
      Outcome(Incomplete, Fail(w, Incomplete))
    else
      var (cancelled, w1) := Poll(env, w);
      if cancelled then Outcome(CancelledError, Fail(w1, CancelledError))
      else Verify(env, w1.(session := w1.session.(state := Verifying)))
  }

  // ----- activation

  function Candidate(s: Session): BootTable {
    BootTable(s.params.ota.start, s.payloadSize, Zeros(8), 65, 85, s.ready.crc16, Zeros(4))
  }

  /** `readPersistedBootTable`: both copies are read, and they must agree. */
  function ReadCopies(env: Env, w: World): (r: (Option<BootTable>, World))
    ensures OnlyHistory(w, r.1)
  {
    var primary := env.copy(w.history, 0);
    var w1 := NoteIn(w, CopyRead(0, primary));
    if primary.None? then (None, w1)
    else
      var backup := env.copy(w1.history, 1);
      var w2 := NoteIn(w1, CopyRead(1, backup));
      if backup.None? || primary != backup then (None, w2) else (primary, w2)
  }

  /** Write a table, read both copies back, and tell whether all went well and in time. */
  function Commit(env: Env, w: World, table: BootTable): (r: (bool, World))
    ensures OnlyHistory(w, r.1)
  {
    var w1 := Tick(env, w);
    var w2 := NoteIn(w1, TableWritten(table, env.stores(w1.history, table)));
    var w3 := Tick(env, w2);
    var writeInTime := !Late(env.timeMs(w.history), env.timeMs(w2.history), ACTIVATION_MAX_MS);
    var w4 := Tick(env, w3);
    var (persisted, w5) := ReadCopies(env, w4);
    var w6 := Tick(env, w5);
    var readInTime := !Late(env.timeMs(w3.history), env.timeMs(w5.history), ACTIVATION_MAX_MS);
    (writeInTime && readInTime && persisted == Some(table), w6)
  }

  function Activate(env: Env, w: World, generation: uint32, sha256: Option<seq<byte>>): (r: Outcome) {
    if w.session.state != Ready then Outcome(InvalidState, w)
    else if sha256.None? || generation == 0 || generation != w.session.ready.sessionGeneration
            || sha256.value != w.session.ready.sha256 then
      Outcome(InvalidArgument, w)
    else
      Install(env, NoteIn(w, Consumed(generation, sha256.value)).(session := w.session.(
        state := Activating, ready := w.session.ready.(sessionGeneration := 0))))
  }

  function Install(env: Env, w: World): (r: Outcome)
    ensures SameSession(w, r.world)
    ensures r.world.session.state == if r.error == Ok then Activated else Failed
    ensures r.world.session.ready == if r.error == Ok then w.session.ready else w.session.ready.(sessionGeneration := 0)
  {
    hide Late, Commit, Replace, Grown, Tick;
    var w1 := Tick(env, w);
    var previous := env.table(w1.history);
    var w2 := NoteIn(w1, TableRead(previous));
    assert Grown(w1.history, w2.history) by { NoteGrows(w1.history, TableRead(previous)); }
    GrownTwice(w.history, w1.history, w2.history);
    if previous.None? then
      GrownTwice(w.history, w2.history, Fail(w2, ActivationError).history);
      Outcome(ActivationError, Fail(w2, ActivationError))
    else
      var w3 := Tick(env, w2);
      GrownTwice(w.history, w2.history, w3.history);
      if Late(env.timeMs(w.history), env.timeMs(w2.history), ACTIVATION_MAX_MS) then
        GrownTwice(w.history, w3.history, Fail(w3, ActivationError).history);
        Outcome(ActivationError, Fail(w3, ActivationError))
      else
        GrownTwice(w.history, w3.history, Replace(env, w3, previous.value).world.history);
        Replace(env, w3, previous.value)
  }

  /** Store the candidate, or else put the previous table back. */
  function Replace(env: Env, w: World, previous: BootTable): (r: Outcome)
    ensures SameSession(w, r.world)
    ensures r.world.session.state == if r.error == Ok then Activated else Failed
    ensures r.world.session.ready == if r.error == Ok then w.session.ready else w.session.ready.(sessionGeneration := 0)
  {
    hide Late, Commit, Grown, Candidate;
    var (verified, w1) := Commit(env, w, Candidate(w.session));
    if verified then Outcome(Ok, w1.(session := w1.session.(state := Activated, lastError := Ok)))
    else
      var (restored, w2) := Commit(env, w1, previous);
      GrownTwice(w.history, w1.history, w2.history);
      var error := if restored then ActivationError else ActivationUncertain;
      var w3 := Fail(w2, error);
      GrownTwice(w.history, w2.history, w3.history);
      Outcome(error, w3)
  }

  function Abort(w: World): (r: Outcome) {
    if w.session.state !in {Receiving, Verifying, Ready} then Outcome(InvalidState, w)
    else
      Outcome(Ok, NoteIn(w, Aborted).(session := w.session.(
        state := Cancelled, lastError := CancelledError, ready := w.session.ready.(sessionGeneration := 0))))
  }
}
