/**
 * The safety rules of a session, stated on its log alone: what each event may follow.
 * The rules mention no field of the engine.
 */
module StagingLog {
  import opened Bytes
  import opened StagingTypes
  import opened PackageHeader
  import opened StagingModel
  import Crc16
  import Sha256

  datatype Check = Check(key: seq<byte>, digest: seq<byte>, signature: seq<byte>)

  /** What a log says has happened so far. */
  datatype Facts = Facts(
    params: Option<Params>,       // the session that was begun
    received: seq<byte>,          // every byte the caller handed over
    polled: bool,                 // the cancellation callback was asked since the last operation
    cancelled: bool,              // the cancellation callback has said yes
    closed: bool,                 // the session failed or was aborted
    broken: bool,                 // a flash or signature operation failed
    verified: Option<Check>,      // a signature check that succeeded
    admitted: Option<Metadata>,   // metadata the admission callback accepted
    erased: nat,                  // bytes erased by successful calls
    written: seq<byte>,           // bytes written by successful calls
    readBack: seq<byte>,          // bytes read back by successful calls
    issued: Option<ImageInfo>,    // the token handed out by Finish
    live: bool,                   // that token has not been used or revoked
    consumed: bool,               // a token was used
    previous: Option<BootTable>,  // the boot table found by Activate
    tables: seq<BootTable>,       // the boot tables written, in order
    primary: Option<BootTable>,   // the first persisted copy, as read back since the last table write
    backup: Option<BootTable>)    // the second one

  function NoFacts(): Facts {
    Facts(None, [], false, false, false, false, None, None, 0, [], [], None, false, false, None, [], None, None)
  }

  predicate Operation(e: Event) { e.Verified? || e.Erased? || e.Wrote? || e.ReadBack? }

  /** A transfer that succeeded and moved the offset by as much as was asked. */
  predicate Succeeded(e: Event)
    requires Operation(e)
  {
    e.result == 0 && ((e.Wrote? || e.ReadBack?) ==> e.next == e.offset + |e.data|)
  }

  /** How long an operation may take. */
  function Limit(e: Event): nat { if e.Verified? then 5000 else 2000 }

  function Learn(f: Facts, e: Event): Facts {
    Facts(
      if e.Began? then Some(e.params) else f.params,
      if e.Offered? then f.received + e.data else f.received,
      e.Polled? || (f.polled && !Operation(e)),
      f.cancelled || (e.Polled? && e.cancel),
      f.closed || e.Closed? || e.Aborted?,
      f.broken || (Operation(e) && !Succeeded(e)),
      if e.Verified? && Succeeded(e) then Some(Check(e.key, e.digest, e.signature)) else f.verified,
      if e.Admitted? && e.accepted then Some(e.metadata) else f.admitted,
      if e.Erased? && Succeeded(e) then f.erased + e.size else f.erased,
      if e.Wrote? && Succeeded(e) then f.written + e.data else f.written,
      if e.ReadBack? && Succeeded(e) then f.readBack + e.data else f.readBack,
      if e.Issued? then Some(e.info) else f.issued,
      e.Issued? || (f.live && !e.Closed? && !e.Aborted? && !e.Consumed?),
      f.consumed || e.Consumed?,
      if e.TableRead? then e.found else f.previous,
      if e.TableWritten? then f.tables + [e.table] else f.tables,
      if e.TableWritten? then None else if e.CopyRead? && e.copy == 0 then e.found else f.primary,
      if e.TableWritten? then None else if e.CopyRead? && e.copy != 0 then e.found else f.backup)
  }

  function Observe(log: seq<Event>): Facts {
    if log == [] then NoFacts() else Learn(Observe(log[..|log| - 1]), log[|log| - 1])
  }

  /** The 320 header bytes and the 64 signature bytes among those received. */
  function HeaderOf(received: seq<byte>): Header
    requires |received| >= PAYLOAD_OFFSET
  {
    received[..320]
  }

  function SignatureOf(received: seq<byte>): Signature
    requires |received| >= PAYLOAD_OFFSET
  {
    received[320..384]
  }

  function VectorsOf(received: seq<byte>): Vectors
    requires |received| >= PAYLOAD_OFFSET + VECTOR_SIZE
  {
    received[384..392]
  }

  /** A flash or signature operation may follow: none has failed, and the caller was asked about cancellation. */
  predicate OperationMayFollow(f: Facts) {
    && f.params.Some? && !f.closed && !f.broken && !f.cancelled && f.issued.None?
    && (f.params.value.hasCancellation ==> f.polled)
  }

  /** The header received in this session passed its checks. */
  predicate HeaderChecked(f: Facts) {
    hide HeaderError;
    f.params.Some? && |f.received| >= PAYLOAD_OFFSET && HeaderError(f.params.value, HeaderOf(f.received)) == Ok
  }

  /** ... its signature was verified under the session's key, and its metadata was admitted. */
  predicate Authorised(f: Facts) {
    hide HeaderChecked, Sha256.Digest, Decode;
    && HeaderChecked(f) && f.params.Some? && |f.received| >= PAYLOAD_OFFSET
    && f.verified == Some(Check(f.params.value.publicKey, Sha256.Digest(HeaderOf(f.received)), SignatureOf(f.received)))
    && (f.params.value.hasAdmission ==> f.admitted == Some(Decode(HeaderOf(f.received))))
  }

  /** The payload size that the header announces. */
  function SizeOf(f: Facts): uint32 {
    if |f.received| >= PAYLOAD_OFFSET then PayloadSize(HeaderOf(f.received)) else 0
  }

  /** ... and its vector table points into the image. */
  predicate ImageStartChecked(f: Facts) {
    hide Authorised, VectorError;
    && Authorised(f) && f.params.Some? && |f.received| >= PAYLOAD_OFFSET + VECTOR_SIZE
    && VectorError(f.params.value, SizeOf(f), VectorsOf(f.received)) == Ok
  }

  /** The promises of a successful Finish. */
  predicate Staged(f: Facts, info: ImageInfo) {
    hide ImageStartChecked, Sha256.Digest, Decode, Crc16.Crc;
    && ImageStartChecked(f)
    && |f.received| == PAYLOAD_OFFSET + SizeOf(f)
    && f.written == f.received[384..]
    && |f.readBack| == SizeOf(f) >= 0x300
    && var h := HeaderOf(f.received);
    && Sha256.Digest(f.written) == h[20..52]
    && Sha256.Digest(f.readBack) == h[20..52]
    && Crc16.Crc(Crc16.ZERO, f.readBack) == Crc16.Crc(Crc16.ZERO, f.written)
    && f.readBack[0x200..0x300] == h[64..320]
    && info.payloadSize == SizeOf(f)
    && info.crc16 == Crc16.Crc(Crc16.ZERO, f.readBack)
    && info.sha256 == h[20..52]
    && info.metadata == Decode(h)
  }

  /** The boot table that installs a staged image. */
  function CandidateFor(p: Params, info: ImageInfo): BootTable {
    BootTable(p.ota.start, info.payloadSize, Zeros(8), 65, 85, info.crc16, Zeros(4))
  }

  /** What was streamed to flash has the digest that the header announces. */
  predicate Streamed(f: Facts) {
    hide Sha256.Digest;
    |f.received| >= PAYLOAD_OFFSET && Sha256.Digest(f.written) == HeaderOf(f.received)[20..52]
  }

  /** The vectors end here, or the payload received so far. */
  predicate PartEnds(f: Facts, end: nat) { end == 8 || 384 + end == |f.received| }

  /** Whether `e` may come next, after a log with these facts. */
  predicate Allowed(f: Facts, e: Event) {
    hide HeaderChecked, ImageStartChecked, Staged, Streamed, Sha256.Digest, Decode;
    match e
    case Began(p) => f == NoFacts() && PAYLOAD_OFFSET < p.packageSize <= UINT32_MAX
    case Offered(data) => f.params.Some? && !f.closed && |f.received| + |data| <= f.params.value.packageSize
    case Refused(size) => f.params.Some? && !f.closed && |f.received| + size > f.params.value.packageSize
    case NullArgument => f.params.Some? && !f.closed
    case Polled(_) => f.params.Some? && f.params.value.hasCancellation && !f.cancelled && !f.closed
    case Ticked(_) => f.params.Some?
    case Verified(key, digest, signature, _) =>
      && OperationMayFollow(f) && HeaderChecked(f) && f.verified.None? && |f.received| >= PAYLOAD_OFFSET
      && Check(key, digest, signature)
         == Check(f.params.value.publicKey, Sha256.Digest(HeaderOf(f.received)), SignatureOf(f.received))
    case Admitted(metadata, _) =>
      && HeaderChecked(f) && f.verified.Some? && OperationMayFollow(f) && |f.received| >= PAYLOAD_OFFSET
      && f.params.value.hasAdmission
      && metadata == Decode(HeaderOf(f.received))
    case Erased(offset, size, _) =>
      && OperationMayFollow(f) && ImageStartChecked(f) && f.written == []
      && offset == f.erased < SizeOf(f) && size == Min(4096, SizeOf(f) - offset)
    case Wrote(offset, data, _, _) =>
      && OperationMayFollow(f) && ImageStartChecked(f) && f.erased == SizeOf(f)
      && offset == |f.written| && 0 < |data| <= 512 && (|data| == 512 || PartEnds(f, offset + |data|))
      && offset + |data| <= SizeOf(f)
      && PAYLOAD_OFFSET + offset + |data| <= |f.received|
      && data == f.received[384 + offset..384 + offset + |data|]
    case ReadBack(offset, data, _, _) =>
      && OperationMayFollow(f) && ImageStartChecked(f) && |f.written| == SizeOf(f) && Streamed(f)
      && offset == |f.readBack| < SizeOf(f) && |data| == Min(512, SizeOf(f) - offset)
    case Issued(info) =>
      !f.closed && !f.broken && !f.cancelled && f.issued.None? && info.sessionGeneration != 0 && Staged(f, info)
    case Closed(_) => f.params.Some? && !f.closed
    case Aborted => f.params.Some? && !f.closed
    case Consumed(generation, sha256) =>
      && f.live && f.issued.Some?
      && generation == f.issued.value.sessionGeneration && sha256 == f.issued.value.sha256
    case TableRead(_) => f.consumed && !f.closed && f.previous.None? && f.tables == []
    case TableWritten(table, _) =>
      && f.consumed && !f.closed && f.previous.Some? && f.params.Some? && f.issued.Some?
      && (f.tables == [] ==> table == CandidateFor(f.params.value, f.issued.value))
      && (f.tables != [] ==> |f.tables| == 1 && table == f.previous.value)
    case CopyRead(copy, _) => f.consumed && !f.closed && f.tables != [] && copy < 2
  }

  /** Every event of the log was allowed when it happened. */
  predicate Safe(log: seq<Event>) {
    log == [] || (Safe(log[..|log| - 1]) && Allowed(Observe(log[..|log| - 1]), log[|log| - 1]))
  }

  lemma Extended(log: seq<Event>, e: Event)
    ensures Observe(log + [e]) == Learn(Observe(log), e)
    ensures Safe(log + [e]) <==> Safe(log) && Allowed(Observe(log), e)
  {
    hide Learn, Allowed;
    assert (log + [e])[..|log + [e]| - 1] == log;
  }

  // ----- why sessions fail

  /** The last three events are a timed operation that took too long. */
  predicate Overran(log: seq<Event>, limit: nat) {
    var n := |log|;
    n >= 3 && log[n - 3].Ticked? && log[n - 1].Ticked? && Milliseconds(log[n - 3].ms, log[n - 1].ms) > limit
    && Operation(log[n - 2]) && Succeeded(log[n - 2])
  }

  /** The header bytes call for this error. */
  predicate HeaderFault(f: Facts, error: Error) {
    hide HeaderError;
    f.params.Some? && |f.received| >= PAYLOAD_OFFSET && HeaderError(f.params.value, HeaderOf(f.received)) == error
  }

  predicate VectorFault(f: Facts) {
    hide VectorError;
    f.params.Some? && |f.received| >= PAYLOAD_OFFSET + VECTOR_SIZE
    && VectorError(f.params.value, SizeOf(f), VectorsOf(f.received)) == VectorTable
  }

  /** What the comparisons of Finish find wrong first. */
  predicate ContentFault(f: Facts, error: Error) {
    hide Sha256.Digest, Crc16.Crc;
    && |f.received| >= PAYLOAD_OFFSET
    && var digest := HeaderOf(f.received)[20..52];
    match error
    case HashMismatch => Sha256.Digest(f.written) != digest
    case ReadBackHashMismatch => Sha256.Digest(f.written) == digest != Sha256.Digest(f.readBack)
    case ReadBackCrcMismatch =>
      && Sha256.Digest(f.written) == digest == Sha256.Digest(f.readBack)
      && Crc16.Crc(Crc16.ZERO, f.readBack) != Crc16.Crc(Crc16.ZERO, f.written)
    case DescriptorMismatch =>
      && Sha256.Digest(f.written) == digest == Sha256.Digest(f.readBack)
      && Crc16.Crc(Crc16.ZERO, f.readBack) == Crc16.Crc(Crc16.ZERO, f.written)
      && |f.readBack| >= 0x300 && f.readBack[0x200..0x300] != HeaderOf(f.received)[64..320]
    case _ => false
  }

  /** No table was written, because the previous one could not be read, or not in time. */
  predicate NotStarted(log: seq<Event>, f: Facts) {
    hide Milliseconds;
    var n := |log|;
    && f.tables == [] && n >= 3
    && (|| log[n - 1] == TableRead(None)
        || (&& log[n - 3].Ticked? && log[n - 2].TableRead? && log[n - 1].Ticked?
            && Milliseconds(log[n - 3].ms, log[n - 1].ms) > 15000))
  }

  /** A candidate was written, and then the table found before. */
  predicate Undone(f: Facts) { f.previous.Some? && |f.tables| == 2 && f.tables[1] == f.previous.value }

  /** The log ends with writing `table` and reading it back from both copies, each in time. */
  predicate Stored(log: seq<Event>, table: BootTable) {
    hide Milliseconds;
    var n := |log|;
    && n >= 7
    && log[n - 7].Ticked? && log[n - 6].TableWritten? && log[n - 6].table == table && log[n - 5].Ticked?
    && Milliseconds(log[n - 7].ms, log[n - 5].ms) <= 15000
    && log[n - 4].Ticked? && log[n - 3] == CopyRead(0, Some(table)) && log[n - 2] == CopyRead(1, Some(table))
    && log[n - 1].Ticked? && Milliseconds(log[n - 4].ms, log[n - 1].ms) <= 15000
  }

  /** The reason in the log for ending a session with `error`. */
  predicate Explains(log: seq<Event>, error: Error) {
    hide Observe, HeaderFault, VectorFault, ContentFault, Milliseconds, NotStarted, Stored;
    && log != []
    && var f, n := Observe(log), |log|;
    var last := log[n - 1];
    match error
    case CancelledError => last == Polled(true)
    case KeyFormat => last.Verified? && last.result == -2
    case SignatureError => last.Verified? && last.result != 0 && last.result != -2
    case SignatureTimeout => Overran(log, 5000) && log[n - 2].Verified?
    case AdmissionRejected => last.Admitted? && !last.accepted
    case EraseError => last.Erased? && last.result != 0
    case EraseTimeout => Overran(log, 2000) && log[n - 2].Erased?
    case WriteError => last.Wrote? && last.result != 0
    case ShortWrite => last.Wrote? && last.result == 0 && last.next != last.offset + |last.data|
    case WriteTimeout => Overran(log, 2000) && log[n - 2].Wrote?
    case ReadBackError => last.ReadBack? && !Succeeded(last)
    case ReadBackTimeout => Overran(log, 2000) && log[n - 2].ReadBack?
    case VectorTable => VectorFault(f)
    case Incomplete => f.params.Some? && |f.received| < f.params.value.packageSize
    case TrailingData => f.params.Some? && last.Refused? && |f.received| + last.size > f.params.value.packageSize
    case InvalidArgument => last.NullArgument?
    case ActivationError => f.consumed && (NotStarted(log, f) || (Undone(f) && Stored(log, f.previous.value)))
    case ActivationUncertain => f.consumed && Undone(f) && !Stored(log, f.previous.value)
    case HashMismatch => ContentFault(f, error)
    case ReadBackHashMismatch => ContentFault(f, error)
    case ReadBackCrcMismatch => ContentFault(f, error)
    case DescriptorMismatch => ContentFault(f, error)
    case PackageFormat => HeaderFault(f, error)
    case Unsupported => HeaderFault(f, error)
    case ImageBounds => HeaderFault(f, error)
    case PackageSize => HeaderFault(f, error)
    case KeyMismatch => HeaderFault(f, error)
    case Ok => false
    case InvalidState => false
    case Busy => false
    case PartitionError => false
  }

  predicate Explained(log: seq<Event>) {
    forall i | 0 <= i < |log| && log[i].Closed? :: Explains(log[..i], log[i].error)
  }

  /** An open session has no failure in its log. */
  lemma {:induction false} OpenIsExplained(log: seq<Event>)
    requires !Observe(log).closed
    ensures Explained(log)
    ensures forall error | Explains(log, error) :: Explained(log + [Closed(error)])
  {
    hide Learn, Explains;
    OpenHasNoClosed(log);
    forall error | Explains(log, error)
      ensures Explained(log + [Closed(error)])
    {
      var longer := log + [Closed(error)];
      forall i | 0 <= i < |longer| && longer[i].Closed?
        ensures Explains(longer[..i], longer[i].error)
      {
        assert i == |log| && longer[..|log|] == log;
      }
    }
  }

  lemma AbortIsExplained(log: seq<Event>)
    requires !Observe(log).closed
    ensures Explained(log + [Aborted])
  {
    hide Learn, Explains, Observe;
    OpenHasNoClosed(log);
    var longer := log + [Aborted];
    assert forall i | 0 <= i < |log| :: longer[i] == log[i];
  }

  lemma {:induction false} OpenHasNoClosed(log: seq<Event>)
    requires !Observe(log).closed
    ensures forall i | 0 <= i < |log| :: !log[i].Closed?
  {
    if log != [] {
      var front, last := log[..|log| - 1], log[|log| - 1];
      ClosedStays(Observe(front), last);
      hide Learn;
      OpenHasNoClosed(front);
      assert forall i | 0 <= i < |front| :: front[i] == log[i];
    }
  }

  lemma ClosedStays(f: Facts, e: Event)
    ensures Learn(f, e).closed <==> f.closed || e.Closed? || e.Aborted?
  {
  }

  // ----- time limits

  /** The log ends with an operation that succeeded and has not been timed yet. */
  predicate Pending(log: seq<Event>) {
    log != [] && Operation(log[|log| - 1]) && Succeeded(log[|log| - 1])
  }

  /** The log ends with an operation that succeeded, between two clock readings that are too far apart. */
  predicate Overdue(log: seq<Event>) {
    hide Milliseconds;
    var n := |log|;
    && n >= 3 && log[n - 3].Ticked? && log[n - 1].Ticked? && Operation(log[n - 2]) && Succeeded(log[n - 2])
    && Milliseconds(log[n - 3].ms, log[n - 1].ms) > Limit(log[n - 2])
  }

  /** An operation follows a clock reading, a clock reading follows it, and only a failure follows if it was late. */
  predicate Timely(log: seq<Event>, e: Event) {
    hide Overdue;
    && (Operation(e) ==> log != [] && log[|log| - 1].Ticked?)
    && (Pending(log) ==> e.Ticked?)
    && (Overdue(log) ==> e.Closed?)
  }

  predicate Punctual(log: seq<Event>) {
    log == [] || (Punctual(log[..|log| - 1]) && Timely(log[..|log| - 1], log[|log| - 1]))
  }

  /** The rules, read off at the position of an operation. */
  lemma OperationsAreTimed(log: seq<Event>, i: nat)
    requires Punctual(log) && i < |log| && Operation(log[i])
    ensures i > 0 && log[i - 1].Ticked?
    ensures Succeeded(log[i]) && i + 1 < |log| ==> log[i + 1].Ticked?
    ensures Succeeded(log[i]) && i + 2 < |log| && !log[i + 2].Closed? ==>
      Milliseconds(log[i - 1].ms, log[i + 1].ms) <= (if log[i].Verified? then 5000 else 2000)
  {
    hide Punctual, Milliseconds;
    TimelyAt(log, i);
    if i + 1 < |log| {
      TimelyAt(log, i + 1);
    }
    if i + 2 < |log| {
      TimelyAt(log, i + 2);
    }
  }

  lemma {:induction false} TimelyAt(log: seq<Event>, i: nat)
    requires Punctual(log) && i < |log|
    ensures Timely(log[..i], log[i])
    decreases |log|
  {
    hide Timely;
    var front := log[..|log| - 1];
    if i < |front| {
      TimelyAt(front, i);
      assert front[..i] == log[..i];
    }
  }

  /** The operation at `i` lies between two clock readings that are not too far apart. */
  predicate InTime(log: seq<Event>, i: nat)
    requires i < |log|
  {
    hide Milliseconds;
    && 0 < i && i + 1 < |log| && log[i - 1].Ticked? && log[i + 1].Ticked?
    && Milliseconds(log[i - 1].ms, log[i + 1].ms) <= (if log[i].Verified? then 5000 else 2000)
  }

  /** An operation that succeeded, in a session that later is still open, was in time. */
  lemma OpenMeansInTime(log: seq<Event>, i: nat, n: nat)
    requires Punctual(log) && i < n < |log| && Operation(log[i]) && Succeeded(log[i])
    requires !log[n].Ticked? && !log[n].Closed? && !Observe(log[..n]).closed
    ensures InTime(log, i)
  {
    hide Punctual, Milliseconds, Observe;
    OperationsAreTimed(log, i);
    OpenHasNoClosed(log[..n]);
    if i + 2 < n {
      assert log[..n][i + 2] == log[i + 2];
    }
  }

  // ----- the rules, read off at the position of an event

  lemma {:induction false} SafePrefix(log: seq<Event>, n: nat)
    requires Safe(log) && n <= |log|
    ensures Safe(log[..n])
  {
    hide Allowed;
    if n < |log| {
      var front := log[..|log| - 1];
      SafePrefix(front, n);
      assert front[..n] == log[..n];
    } else {
      assert log[..n] == log;
    }
  }

  lemma AllowedAt(log: seq<Event>, i: nat)
    requires Safe(log) && i < |log|
    ensures Safe(log[..i]) && Allowed(Observe(log[..i]), log[i])
  {
    hide Allowed, Observe;
    SafePrefix(log, i + 1);
    assert log[..i + 1][..i] == log[..i];
  }

  lemma Learned(f: Facts, e: Event)
    ensures var g := Learn(f, e);
      && g.params == (if e.Began? then Some(e.params) else f.params)
      && g.polled == (e.Polled? || (f.polled && !Operation(e)))
      && g.cancelled == (f.cancelled || (e.Polled? && e.cancel))
      && g.verified == (if e.Verified? && e.result == 0 then Some(Check(e.key, e.digest, e.signature)) else f.verified)
      && g.admitted == (if e.Admitted? && e.accepted then Some(e.metadata) else f.admitted)
  {
  }

  lemma {:induction false} VerifiedWasLogged(log: seq<Event>)
    requires Observe(log).verified.Some?
    ensures var c := Observe(log).verified.value;
      exists j :: 0 <= j < |log| && log[j] == Verified(c.key, c.digest, c.signature, 0)
  {
    hide Learn;
    assert log != [];
    var front, last := log[..|log| - 1], log[|log| - 1];
    var c := Observe(log).verified.value;
    Learned(Observe(front), last);
    if last.Verified? && last.result == 0 {
      assert log[|log| - 1] == Verified(c.key, c.digest, c.signature, 0);
    } else {
      VerifiedWasLogged(front);
      var j :| 0 <= j < |front| && front[j] == Verified(c.key, c.digest, c.signature, 0);
      assert log[j] == Verified(c.key, c.digest, c.signature, 0);
    }
  }

  lemma {:induction false} AdmittedWasLogged(log: seq<Event>)
    requires Observe(log).admitted.Some?
    ensures exists j :: 0 <= j < |log| && log[j] == Admitted(Observe(log).admitted.value, true)
  {
    hide Learn;
    assert log != [];
    var front, last := log[..|log| - 1], log[|log| - 1];
    var m := Observe(log).admitted.value;
    Learned(Observe(front), last);
    if last.Admitted? && last.accepted {
      assert log[|log| - 1] == Admitted(m, true);
    } else {
      AdmittedWasLogged(front);
      var j :| 0 <= j < |front| && front[j] == Admitted(m, true);
      assert log[j] == Admitted(m, true);
    }
  }

  predicate FlashChange(e: Event) { e.Erased? || e.Wrote? }

  /** Nothing is read back before the whole payload was streamed with the digest that the header announces. */
  lemma StreamedBeforeReadBack(log: seq<Event>, i: nat)
    requires Safe(log) && i < |log| && log[i].ReadBack?
    ensures var f := Observe(log[..i]);
      && |f.received| >= PAYLOAD_OFFSET && |f.written| == SizeOf(f)
      && Sha256.Digest(f.written) == HeaderOf(f.received)[20..52]
  {
    hide Observe, Safe, SizeOf, ImageStartChecked, OperationMayFollow, HeaderChecked, Staged, Sha256.Digest;
    AllowedAt(log, i);
  }

  /** Flash is erased, written and read in full blocks, except at the end of what there is. */
  lemma BlocksAreFull(log: seq<Event>, i: nat)
    requires Safe(log) && i < |log|
    ensures var f := Observe(log[..i]);
      match log[i]
      case Erased(offset, size, _) => size == Min(4096, SizeOf(f) - offset)
      case Wrote(offset, data, _, _) => 0 < |data| <= 512 && (|data| == 512 || PartEnds(f, offset + |data|))
      case ReadBack(offset, data, _, _) => |data| == Min(512, SizeOf(f) - offset)
      case _ => true
  {
    hide Observe, Safe, SizeOf, ImageStartChecked, OperationMayFollow, HeaderChecked, Staged;
    AllowedAt(log, i);
  }

  /**
   * Authenticate before erase: before any erase or write of the OTA partition, the same session verified the
   * signature over exactly the header bytes received, under its own key, within the time limit if the log is punctual,
   * and had the metadata admitted.
   */
  lemma AuthenticatedBeforeFlash(log: seq<Event>, i: nat)
    requires Safe(log) && i < |log| && FlashChange(log[i])
    ensures var f := Observe(log[..i]);
      && ImageStartChecked(f) && f.params.Some? && |f.received| >= PAYLOAD_OFFSET
      && (exists j :: 0 <= j < i && log[j] == Verified(f.params.value.publicKey,
            Sha256.Digest(HeaderOf(f.received)), SignatureOf(f.received), 0) && (Punctual(log) ==> InTime(log, j)))
      && (f.params.value.hasAdmission ==>
            exists j :: 0 <= j < i && log[j] == Admitted(Decode(HeaderOf(f.received)), true))
  {
    hide Observe, HeaderChecked, Decode, VectorError, Sha256.Digest, Safe, Punctual, InTime;
    AllowedAt(log, i);
    var before := log[..i];
    var f := Observe(before);
    assert Authorised(f);
    VerifiedWasLogged(before);
    var c := f.verified.value;
    var j :| 0 <= j < |before| && before[j] == Verified(c.key, c.digest, c.signature, 0);
    assert log[j] == before[j];
    if Punctual(log) {
      OpenMeansInTime(log, j, i);
    }
    if f.params.value.hasAdmission {
      AdmittedWasLogged(before);
      var k :| 0 <= k < |before| && before[k] == Admitted(f.admitted.value, true);
      assert log[k] == before[k];
    }
  }

  lemma {:induction false} PolledMeansQuiet(log: seq<Event>)
    requires Observe(log).polled
    ensures exists k :: 0 <= k < |log| && log[k].Polled? && forall m | k < m < |log| :: !Operation(log[m])
  {
    hide Learn;
    assert log != [];
    var front, last := log[..|log| - 1], log[|log| - 1];
    Learned(Observe(front), last);
    if last.Polled? {
      assert log[|log| - 1].Polled?;
    } else {
      PolledMeansQuiet(front);
      var k :| 0 <= k < |front| && front[k].Polled? && forall m | k < m < |front| :: !Operation(front[m]);
      assert log[k].Polled?;
      assert forall m | k < m < |log| :: m < |front| ==> log[m] == front[m];
    }
  }

  lemma {:induction false} CancelStays(log: seq<Event>, i: nat, n: nat)
    requires i < n <= |log| && log[i] == Polled(true)
    ensures Observe(log[..n]).cancelled
    decreases n
  {
    hide Learn;
    assert log[..n][..n - 1] == log[..n - 1];
    Learned(Observe(log[..n - 1]), log[n - 1]);
    if i < n - 1 {
      CancelStays(log, i, n - 1);
    }
  }

  lemma {:induction false} ParamsStay(log: seq<Event>, n: nat)
    requires Safe(log) && 0 < n <= |log|
    ensures log[0].Began? && Observe(log[..n]).params == Some(log[0].params)
    decreases n
  {
    hide Learn;
    var front, last := log[..n - 1], log[n - 1];
    AllowedAt(log, n - 1);
    assert log[..n][..n - 1] == front;
    Learned(Observe(front), last);
    if n > 1 {
      ParamsStay(log, n - 1);
      BeganIsFirst(Observe(front), last);
    } else {
      assert front == [];
      FirstIsBegan(last);
    }
  }

  lemma BeganIsFirst(f: Facts, e: Event)
    requires Allowed(f, e) && f.params.Some?
    ensures !e.Began?
  {
  }

  lemma FirstIsBegan(e: Event)
    requires Allowed(NoFacts(), e)
    ensures e.Began?
  {
  }

  lemma OperationsArePolled(f: Facts, e: Event)
    requires Allowed(f, e) && Operation(e)
    ensures OperationMayFollow(f)
  {
  }

  /** Since the operation at `i` the callback was asked, if it counts as asked now. */
  lemma PolledSince(log: seq<Event>, i: nat)
    requires Observe(log).polled && i < |log| && Operation(log[i])
    ensures exists k :: i < k < |log| && log[k].Polled?
  {
    hide Observe;
    PolledMeansQuiet(log);
  }

  lemma NoCancelBefore(log: seq<Event>, i: nat)
    requires !Observe(log).cancelled && i < |log|
    ensures log[i] != Polled(true)
  {
    hide Observe;
    assert log[..|log|] == log;
    if log[i] == Polled(true) {
      CancelStays(log, i, |log|);
    }
  }

  /**
   * Bounded cancellation: a session with a cancellation callback asks it between any two flash or signature
   * operations, and after the first yes no operation follows.
   */
  lemma CancellationIsBounded(log: seq<Event>, i: nat, j: nat)
    requires Safe(log) && i < j < |log| && Operation(log[j])
    requires log[0].Began? && log[0].params.hasCancellation
    ensures log[i] != Polled(true)
    ensures Operation(log[i]) ==> exists k :: i < k < j && log[k] == Polled(false)
  {
    hide Observe, Allowed, Safe;
    var before := log[..j];
    AllowedAt(log, j);
    ParamsStay(log, j);
    OperationsArePolled(Observe(before), log[j]);
    assert log[i] == before[i];
    NoCancelBefore(before, i);
    if Operation(before[i]) {
      PolledSince(before, i);
      var k :| i < k < |before| && before[k].Polled?;
      NoCancelBefore(before, k);
      assert log[k] == Polled(false);
    }
  }
}
