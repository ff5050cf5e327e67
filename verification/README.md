# A Dafny model of the AZ3166 OTA staging engine and its neighbours

The project models the signed-package update path of the AZ3166 (MXChip IoT DevKit) core, and five smaller pieces of
the same code base, and proves what they promise.

**The staging engine.** One session is driven by Begin, WritePackage, Finish, Activate and Abort over a platform: flash,
clock, signature check, callbacks, boot table. The platform is arbitrary. Its answers are functions of the whole history
(`Env` in `StagingModel`), so a statement about every `Env` covers every behaviour of flash, clock and callbacks. Every
call of the platform and every step of a session is recorded in a log.

- `StagingModel` says what each operation does, as a function from a state to an outcome.
- `StagingEngine` is the same engine as an object with its loops, fields, hash context and clock reads; each method is
  proved to leave exactly the state and log that the functions say.
- `StagingLog` reads facts off a log (`Observe`), says which event may come next (`Allowed`), and what counts as a reason
  for an error (`Explains`). `StagingActivation` reads the course of an activation off the log.
- `StagingInvariant` and `StagingRuns` prove that every call keeps the invariant: the log obeys the rules, and the session
  is a closed function of the parameters and the bytes received.
- `StagingTime` proves that every call keeps the time limits.
- `StagingTheorems` draws the consequences for every sequence of calls on every platform. `StagingCalls` says what each
  call asks first and which answer it gives. `StagingChunks` and `StagingDelivery` say exactly what happens on a platform
  that works.

**What it builds on.** `Crc16` (a 16-bit word is a string of 16 bits; the checksum is proved to be a polynomial
remainder), `Sha256` (the streaming context against sections 5 and 6.2 of FIPS 180-4), `Sha256Constants` and
`Sha256Example` (its constants as roots of primes, its functions bit by bit, and the standard's one-block example; the
example is worked out on machine words in `WordFacts`, `MachineWords` and `Sha256Machine`), `PackageHeader`,
`HeaderChecks`, `HeaderFaults` and `VersionText` (the canonical header, the loops that check it, and the checks as a table
of fields), `PublicKey` (the encoding of the key), `NorFlash` (erasing sets bits, writing clears them).

**The neighbours.** `RingBuffer` (a bounded queue, sequentially and with one producer and one consumer interleaved read by
read), `FlashBlockDevice` (512-byte sectors over 4 KiB erase sectors), `TopicFilter` (MQTT topic filters),
`FirmwareVersion`, `NumberText` and `IpAddress` (printing and parsing). `TextSplit`, `Bytes`, `BitStrings` and
`StagingTypes` hold what they share.

Four promises turn out narrower in the code than a reader might expect; each has its exact condition:

- The topic matcher refuses some names the standard matches. It agrees with the standard exactly when every wildcard has a
  non-empty level to consume (`TopicFilter.IsTopicMatched`, `TopicFilter.NarrowerThanTheStandard`).
- The sector count of a block-device request is truncated to a byte, and the address and size to whole sectors. A request
  that is not empty is carried out as asked exactly when it is aligned, in whole sectors and shorter than 256 of them
  (`FlashBlockDevice.ProgramIsComplete`, `FlashBlockDevice.ReadIsComplete`).
- Reading a printed number overflows an intermediate value close to the limit of 32 bits. It does not exactly up to the
  magnitude 2147483599 (`NumberText.PrintParseRoundTrip`).
- A digit of 201 is printed as a NUL, which ends the text. Every number is printed in full exactly up to base 201
  (`NumberText.PrintedInFull`).

Where code and documentation differ, the model follows the code: `libraries/OTA/README.md` says that Finish checks the
vector table on read-back, but the code checks it once, before the first erase, on the bytes received; Finish then
compares digest, checksum and descriptor of the bytes read back. `StagingTheorems.VectorsReadBack` says what that comes to.

`dafny verify dfyconfig.toml` checks the whole project.

## Model

| member | source | states |
|---|---|---|
| `StagingTheorems.EveryRunIsSafe` | libraries/OTA/src/OTAStaging.cpp:583-917 | For every sequence of calls and every platform: the log of every session obeys the rules `Allowed` (authenticate before flash, ordered erase, write and read-back, polls, tokens, boot tables) and the time limits (`Timely`), every failure in it has its reason, no call returns in VERIFYING or ACTIVATING, and a cancelled session is CANCELLED |
| `StagingRuns.StepKeeps` | libraries/OTA/src/OTAStaging.cpp:583-917 | Each of the five calls, from any state satisfying the invariant and with any answers of the platform, ends in a state satisfying it again |
| `StagingLog.AuthenticatedBeforeFlash` | libraries/OTA/src/OTAStaging.cpp:332-562 | Before any erase or write of the OTA partition the same session verified the signature over the digest of exactly the 320 header bytes received, under the key given to Begin, had the metadata admitted if it asks for that, and passed header, bounds and vector checks; in a punctual log that signature check was in time |
| `StagingTheorems.EveryFlashIsAuthorised` | libraries/OTA/src/OTAStaging.cpp:332-562 | For every sequence of calls: before any erase or write the session verified, within 5 seconds by its clock readings, the signature over the header received, and its vectors passed |
| `StagingLog.OperationsAreTimed` | libraries/OTA/src/OTAStaging.cpp:327-330 | In a punctual log every operation follows a clock reading, a successful one is followed by another, and anything but a failure after that means at most 2000 milliseconds between the two readings, or 5000 for the signature check |
| `StagingTime.StepKept` | libraries/OTA/src/OTAStaging.cpp:408-529 | Every call keeps the time limits: an erase, write or read of more than 2000 milliseconds and a signature check of more than 5000 are followed by nothing but the failure of the session |
| `StagingModel.ClockMeasures` | libraries/OTA/src/OTAStaging.cpp:327-330 | For every start and every duration below 2^32 milliseconds, two readings of the wrapping clock measure exactly the duration, and the limit counts as exceeded exactly if the duration is greater |
| `StagingLog.BlocksAreFull` | libraries/OTA/src/OTAStaging.cpp:468-529 | In every safe log each erase covers 4096 bytes or up to the end of the image, each write 512 bytes or up to the end of the vectors or of the payload received so far, each read-back 512 bytes or up to the end of the image, so that no poll is further away than one such block |
| `StagingLog.StreamedBeforeReadBack` | libraries/OTA/src/OTAStaging.cpp:738-746 | Nothing is read back before the whole payload was written and its streamed digest found to be the one in the authenticated header |
| `StagingLog.CancellationIsBounded` | libraries/OTA/src/OTAStaging.cpp:311-325 | Between any two flash or signature operations of a cancellable session lies a poll that said no, and after a poll that said yes there is no operation |
| `StagingLog.ParamsStay` | libraries/OTA/src/OTAStaging.cpp:583-642 | A session log starts with Begin, and the parameters given there are in force for the rest of it |
| `StagingTheorems.TerminalStatesStay` | libraries/OTA/src/OTAStaging.cpp:583-661 | FAILED, CANCELLED and ACTIVATED are left by nothing but a successful Begin; all other calls change nothing, and a refused Begin at most asks for the partitions |
| `StagingTheorems.EveryFailureIsExplained` | libraries/OTA/src/OTAStaging.cpp:317-325 | In every history, a session closed with an error has the reason for exactly that error in its log: the poll that said yes, the chunk that is too long, the missing argument, the failed or late operation, the faulty header, vector table, digest, checksum or descriptor, the boot table that was restored in time or was not |
| `StagingTheorems.FailureIsReported` | libraries/OTA/src/OTAStaging.cpp:317-325 | A call that returns an error either changes nothing, a Begin having at most asked for the partitions, or closes the session with that very error and no token, and the log gives the reason |
| `StagingTheorems.VectorsMeaning` | libraries/OTA/src/OTAStaging.cpp:445-466 | The vector check passes if and only if the stack pointer is aligned and in RAM and the Thumb reset handler lies inside the image at the application address, with no 32-bit wrap-around |
| `StagingTheorems.FinishSound` | libraries/OTA/src/OTAStaging.cpp:716-835 | If Finish succeeds, the bytes received are header, signature and payload, the streamed and the read-back payload both have the authenticated digest and equal checksums, and the descriptor read back is the authenticated one; and every operation of the session succeeded, within 2000 milliseconds or 5000 for the signature check, where the limits were kept before, as they are in every history |
| `StagingTheorems.TokensAreSound` | libraries/OTA/src/OTAStaging.cpp:803-834 | The same for every token in every safe log, and every operation before it in time if the log is punctual |
| `StagingTheorems.EveryTokenIsSound` | libraries/OTA/src/OTAStaging.cpp:716-835 | For every sequence of calls: every token ever handed out stands for a staged image, and every operation of its session succeeded in time, so that a late operation prevents READY |
| `StagingTheorems.VectorsReadBack` | libraries/OTA/src/OTAStaging.cpp:803-819 | With a token, the vector table in the bytes read back is valid too, or the payload and the bytes read back are different strings with one digest and one checksum |
| `StagingRuns.CopyDescriptorCovers` | libraries/OTA/src/OTAStaging.cpp:768-800 | Copying blocks of any size, at any offset, reassembles the bytes 0x200 to 0x2FF of the image |
| `StagingRuns.ReadFromAt` | libraries/OTA/src/OTAStaging.cpp:746-801 | The read-back loop reads the whole image in order and copies the descriptor out of it, or gives up for a reason that is in the log |
| `StagingRuns.ReceiveAt` | libraries/OTA/src/OTAStaging.cpp:662-714 | Whatever the boundaries of the parts, the session after a chunk is a closed function (`SessionOf`) of the parameters and of the bytes received, and flash holds exactly the payload received |
| `StagingTheorems.PartitionHoldsPayload` | libraries/OTA/src/OTAStaging.cpp:468-529 | On flash whose writes only clear bits, while no operation has failed, the OTA partition holds the payload bytes received, each at its own offset, then erased bytes to the end of the last 4 KiB sector of the image, since an erase blanks whole sectors, then what was there before |
| `StagingTheorems.FlashCallsAreInOrder` | libraries/OTA/src/OTAStaging.cpp:468-529 | No byte is erased twice or written twice, offsets only grow, and nothing is erased once something was written, whatever the flash answers |
| `StagingTheorems.ReceivingCounters` | libraries/OTA/src/OTAStaging.cpp:702-711 | Between calls, once erased: write offset = payload written = package received - 384, within the payload size |
| `StagingTheorems.TokensAreDistinct` | libraries/OTA/src/OTAStaging.cpp:821-834 | Generations handed out are never zero, and two handed out fewer than 2^32 - 1 successes apart differ |
| `StagingTheorems.TokensDie` | libraries/OTA/src/OTAStaging.cpp:317-325 | A Begin or Abort that succeeds, a call that closes the session and an accepted Activate leave every token handed out so far dead |
| `StagingTheorems.AbortRevokes` | libraries/OTA/src/OTAStaging.cpp:905-917 | Abort succeeds exactly in RECEIVING and READY, ends in CANCELLED, and leaves no token alive; otherwise it changes nothing |
| `StagingTheorems.DeadStaysDead` | libraries/OTA/src/OTAStaging.cpp:583-917 | A dead token stays dead under every sequence of calls, and the tokens handed out stay the same |
| `StagingTheorems.StaleTokensAreRefused` | libraries/OTA/src/OTAStaging.cpp:837-855 | A dead token is refused and nothing changes, within 2^32 - 1 successes |
| `StagingTheorems.TokensNeverRevive` | libraries/OTA/src/OTAStaging.cpp:837-855 | A token handed out before its session was aborted, failed, used or replaced is refused after every sequence of later calls, within that window |
| `StagingTheorems.OneCandidate` | libraries/OTA/src/OTAStaging.cpp:861-902 | A session writes at most two boot tables: the candidate of its own token, then the table found before |
| `StagingRuns.ActivationOutcomes` | libraries/OTA/src/OTAStaging.cpp:853-902 | Once a token is accepted: success means both copies read back as the candidate; ACTIVATION means no table was written or both copies read back as the previous one; anything else is ACTIVATION_UNCERTAIN; the token is spent |
| `StagingTheorems.ActivationIsExact` | libraries/OTA/src/OTAStaging.cpp:853-902 | For an accepted token the log tells the course of the activation and the course decides the result, both ways: success if and only if the candidate was written and read back from both copies in time; otherwise ACTIVATION if and only if the previous table was not read in time or was restored and read back from both copies in time; otherwise ACTIVATION_UNCERTAIN |
| `StagingActivation.CommitTells` | libraries/OTA/src/OTAStaging.cpp:867-880 | Committing a table succeeds exactly when both copies read back as the table and neither the write nor the read was late by the clock readings in the log |
| `StagingActivation.CourseFromLog` | libraries/OTA/src/OTAStaging.cpp:853-902 | Two right courses of an activation that leave the same events are the same, so that the log alone determines the result |
| `StagingRuns.AbortKeeps` | libraries/OTA/src/OTAStaging.cpp:905-917 | Abort keeps the invariant and hands out no token |
| `StagingRuns.BeginKeeps` | libraries/OTA/src/OTAStaging.cpp:583-642 | Begin keeps the invariant, whether it refuses or starts a fresh session and log |
| `StagingRuns.GenerationSteps` | libraries/OTA/src/OTAStaging.cpp:821-827 | Incrementing with wrap-around that skips zero enumerates 1 to 2^32 - 1 and starts again |
| `StagingChunks.ErrorsPersist` | libraries/OTA/src/OTAStaging.cpp:332-466 | An error called for by a prefix of the package is called for by the package |
| `StagingChunks.ChunkDecides` | libraries/OTA/src/OTAStaging.cpp:644-714 | If the operations succeed within their time limits, nobody cancels and the verdicts depend on the header alone, a chunk is refused exactly with the error that all bytes so far call for |
| `StagingChunks.ChunksDecide` | libraries/OTA/src/OTAStaging.cpp:644-714 | The same for any sequence of chunks, empty ones included |
| `StagingChunks.SameBytesSameSession` | libraries/OTA/src/OTAStaging.cpp:497-562 | Two receiving sessions with the same parameters and bytes have the same counters, buffers, hash, checksum and flash |
| `StagingChunks.ChunkIndependence` | libraries/OTA/src/OTAStaging.cpp:497-714 | On such a platform, whatever the pauses between the calls, every way of cutting the bytes into chunks ends in the same error as one call; without an error in the same session and the same flash contents |
| `StagingChunks.BeginOpens` | libraries/OTA/src/OTAStaging.cpp:583-642 | A session that has just begun has received nothing and is open, which is where the chunk theorems start |
| `StagingDelivery.FinishDecides` | libraries/OTA/src/OTAStaging.cpp:716-835 | If in this session reads deliver what its erases and writes left on the flash it found, Finish on a complete package fails with HASH_MISMATCH, fails with DESCRIPTOR_MISMATCH or succeeds according to the package bytes alone, and reports their size, checksum, digest and metadata |
| `StagingDelivery.ActivateSucceeds` | libraries/OTA/src/OTAStaging.cpp:837-903 | If the boot table can be read and the copies hold what was last written, each call being in time, the token installs the image in both copies |
| `StagingDelivery.DeliveryIsExact` | libraries/OTA/src/OTAStaging.cpp:583-903 | On a platform that works in the session to come, Begin, the chunks, Finish and Activate all succeed if and only if no session is active, key, size and partitions are acceptable, the bytes have the announced size, and their header, signature, admission, vectors, digest and descriptor are right, and then both boot table copies hold the entry for these bytes |
| `StagingDelivery.BeginIff` | libraries/OTA/src/OTAStaging.cpp:583-642 | Begin succeeds exactly if no session is active, the key has the right form, the size is in range and both partitions are usable, and opens a session with these parameters |
| `StagingCalls.BeginAnswers` | libraries/OTA/src/OTAStaging.cpp:583-629 | Each answer of Begin if and only if: BUSY in an active session, KEY_FORMAT for anything but a P-256 key, PACKAGE_SIZE outside 385 to 2^32 - 1 bytes, PARTITION for a missing or empty partition, in this order; a refusal leaves everything but the record of lookups as it was |
| `PublicKey.KeyForm` | libraries/OTA/src/OTAStaging.cpp:564-569 | A key is taken if and only if it is the DER encoding of section 2 of RFC 5480 for an uncompressed point on the curve 1.2.840.10045.3.1.7, built here from the identifiers |
| `StagingCalls.WrongStateIsRefused` | libraries/OTA/src/OTAStaging.cpp:583-917 | A call in a state it does not work in is refused, with BUSY for Begin and INVALID_STATE otherwise, and changes nothing |
| `StagingCalls.MisuseIsRefused` | libraries/OTA/src/OTAStaging.cpp:644-731 | A null buffer with a size or a null result closes the session with INVALID_ARGUMENT, a chunk that is too long with TRAILING_DATA, an incomplete package with INCOMPLETE, before anything is asked or done |
| `StagingCalls.EmptyBuffers` | libraries/OTA/src/OTAStaging.cpp:650-653 | A null buffer of size zero is an empty chunk |
| `StagingCalls.WriteAsksFirst` | libraries/OTA/src/OTAStaging.cpp:644-661 | With a callback, WritePackage of any chunk that fits, the empty one included, asks about cancellation before anything else; a yes returns CANCELLED in state CANCELLED, and nothing is done |
| `StagingCalls.FinishAsksFirst` | libraries/OTA/src/OTAStaging.cpp:716-736 | The same for Finish of a complete package |
| `StagingCalls.AskedAfterSignature` | libraries/OTA/src/OTAStaging.cpp:408-443 | Between calls, with the signature checked and the vectors not yet complete, the callback was asked again after the signature check |
| `StagingCalls.ActivationNeedsToken` | libraries/OTA/src/OTAStaging.cpp:837-858 | For every state of the invariant: outside READY Activate is refused with INVALID_STATE, in READY with INVALID_ARGUMENT unless the generation is the live non-zero one handed out and the digest is that of the bytes read back, and a refusal changes nothing; otherwise exactly this token is used up first |
| `StagingCalls.SuccessIsReported` | libraries/OTA/src/OTAStaging.cpp:583-917 | After a call that succeeds the status shows no error, CANCELLED after Abort, and the state is RECEIVING, READY, ACTIVATED or CANCELLED according to the call |
| `StagingCalls.FinishCounts` | libraries/OTA/src/OTAStaging.cpp:746-819 | Finish never counts more bytes as verified than the payload has, and all of them whenever it succeeds or gets as far as a comparison |
| `StagingDelivery.WorkingPlatformWorks` | libraries/OTA/src/OTAStaging.cpp:583-903 | The assumptions of the delivery theorems can be met together after any earlier sessions, for any verdicts, policy, partitions and contents: by a platform whose flash erases whole sectors, whose flash and boot table keep their contents, whose clock runs on for a minute between calls and wraps, and whose signature check takes four seconds |
| `StagingEngine.StagingEngine.IsCancelled` | libraries/OTA/src/OTAStaging.cpp:311-315 | The poll of the cancellation callback, equal to `Poll` |
| `StagingEngine.StagingEngine.ElapsedExceeded` | libraries/OTA/src/OTAStaging.cpp:327-330 | More than the limit has passed since the start, in milliseconds of a clock that may wrap (`Milliseconds`, measured by `StagingModel.ClockMeasures`) |
| `StagingEngine.StagingEngine.Failing` | libraries/OTA/src/OTAStaging.cpp:317-325 | Closing a session, equal to `Fail` |
| `StagingEngine.StagingEngine.ErasePayloadRange` | libraries/OTA/src/OTAStaging.cpp:468-495 | The erase loop leaves exactly the state and log of `EraseFrom` |
| `StagingEngine.StagingEngine.WriteAllPayload` | libraries/OTA/src/OTAStaging.cpp:497-529 | The write loop, with its running hash and checksum, equals `WritePayload` |
| `StagingEngine.StagingEngine.ValidatePackageHeader` | libraries/OTA/src/OTAStaging.cpp:332-443 | The field loops, key check, signature check and admission equal `ValidateHeader` |
| `StagingEngine.StagingEngine.AcceptPayloadBytes` | libraries/OTA/src/OTAStaging.cpp:531-562 | Collecting the vectors, erasing and writing equal `AcceptPayload` |
| `StagingEngine.StagingEngine.Write` | libraries/OTA/src/OTAStaging.cpp:644-714 | WritePackage, poll on entry, loop and error paths, equals the function the theorems are about (what it asks first: `StagingCalls.WriteAsksFirst`), and its counters stay in range |
| `StagingEngine.StagingEngine.BeginSession` | libraries/OTA/src/OTAStaging.cpp:583-642 | Begin equals the function the theorems are about |
| `StagingEngine.StagingEngine.ReadBackImage` | libraries/OTA/src/OTAStaging.cpp:746-801 | The read-back loop equals `ReadFrom`, with digest, checksum and descriptor of the bytes it read |
| `StagingEngine.StagingEngine.FinishSession` | libraries/OTA/src/OTAStaging.cpp:716-835 | Finish equals the function the theorems are about, and hands out the image of the session |
| `StagingEngine.StagingEngine.CommitTable` | libraries/OTA/src/OTAStaging.cpp:867-880 | Writing a boot table and reading both copies back equals `Commit` |
| `StagingEngine.StagingEngine.ActivateImage` | libraries/OTA/src/OTAStaging.cpp:837-903 | Activate equals the function the theorems are about (which generation and digest it takes: `StagingCalls.ActivationNeedsToken`) |
| `StagingEngine.StagingEngine.AbortSession` | libraries/OTA/src/OTAStaging.cpp:905-917 | Abort equals the function the theorems are about |
| `StagingEngine.StagingEngine.Execute` | libraries/OTA/src/OTAStaging.cpp:583-917 | Any sequence of calls on the object ends in the state and history of `Run`, so that the theorems about `Run` hold of it |
| `StagingEngine.Platform.ReadPersistedBootTable` | libraries/OTA/src/OTAStagingPlatform.cpp:94-123 | Both copies are read and must agree, equal to `ReadCopies` |
| `Sha256.Sha256Context.Init` | libraries/OTA/src/OTAStaging.cpp:158-167 | An initialised context has absorbed nothing |
| `Sha256.Sha256Context.Transform` | libraries/OTA/src/OTAStaging.cpp:89-156 | The in-place transform is the compression function of section 6.2.2 of FIPS 180-4, whose constants, logical functions and one-block example are pinned by `Sha256Constants` and `Sha256Example` |
| `Sha256.Sha256Context.Expand` | libraries/OTA/src/OTAStaging.cpp:108-123 | The 64 words are the message schedule of section 6.2.2 of FIPS 180-4 |
| `Sha256.Sha256Context.Update` | libraries/OTA/src/OTAStaging.cpp:169-186 | Absorbing a chunk of any length appends it to the message absorbed |
| `Sha256.Sha256Context.Finish` | libraries/OTA/src/OTAStaging.cpp:188-211 | The digest is that of the padded message folded block by block, for every tail length |
| `Sha256.Hash` | libraries/OTA/src/OTAStaging.cpp:213-219 | The one-call hash is the standard digest; for "abc" it is the value that FIPS 180-4 gives (`Sha256Example.DigestOfAbc`) |
| `Sha256.HashChunks` | libraries/OTA/src/OTAStaging.cpp:158-211 | Any sequence of updates gives the digest of the concatenation |
| `Sha256.PaddingIsMinimal` | libraries/OTA/src/OTAStaging.cpp:188-205 | The padding reaches 448 mod 512 bits with the smallest number of zero bits, as section 5.1.1 of FIPS 180-4 asks |
| `Sha256.LengthFieldExact` | libraries/OTA/src/OTAStaging.cpp:188-205 | The length field is the number of message bits, for every message below 2^61 bytes |
| `Sha256Constants.RoundConstants` | libraries/OTA/src/OTAStaging.cpp:91-107 | The 64 round constants are, in order, the first 32 bits of the fractional parts of the cube roots of the first 64 primes, as exact integer bounds; the primes are proved prime and consecutive |
| `Sha256Constants.InitialValue` | libraries/OTA/src/OTAStaging.cpp:158-167 | The initial hash value is the same for the square roots of the first eight primes |
| `Sha256Constants.BitByBit` | libraries/OTA/src/OTAStaging.cpp:60-156 | Bit by bit: Ch chooses, Maj takes the majority, a rotation moves every bit around the end, a shift drops bits |
| `Sha256Constants.FoldIsChained` | libraries/OTA/src/OTAStaging.cpp:169-186 | Folding the blocks from the end is chaining them from the start, each from the hash value of the one before |
| `Sha256Example.DigestOfAbc` | libraries/OTA/src/OTAStaging.cpp:89-219 | The digest of "abc" is the one in FIPS 180-4, worked out round by round, which fixes the rotation amounts and the wiring of the rounds |
| `Crc16.Update` | libraries/OTA/src/OTAStaging.cpp:221-233 | The bitwise loop computes the checksum `Crc` |
| `Crc16.Composes` | libraries/OTA/src/OTAStaging.cpp:221-233 | The checksum of a concatenation continues from that of the first part |
| `Crc16.ShiftBijective` | libraries/OTA/src/OTAStaging.cpp:221-233 | The one-bit step is a bijection of the 16-bit words |
| `Crc16.Linear` | libraries/OTA/src/OTAStaging.cpp:221-233 | The checksum is linear over exclusive or, in the start value and the data together |
| `Crc16.DifferencePersists` | libraries/OTA/src/OTAStaging.cpp:221-233 | Two different checksums stay different whatever the same data is that follows |
| `Crc16.AdjacentErrorsDetected` | libraries/OTA/src/OTAStaging.cpp:221-233 | Strings of equal length that differ only within two adjacent bytes have different checksums |
| `Crc16.CrcIsRemainder` | libraries/OTA/src/OTAStaging.cpp:221-233 | From zero, the checksum is the one 16-bit word that differs from the message times x^16 by a multiple of x^16 + x^12 + x^5 + 1 over GF(2) |
| `Crc16.RemainderIsUnique` | libraries/OTA/src/OTAStaging.cpp:221-233 | Dividing by the polynomial leaves one remainder, whatever the quotient |
| `Bytes.Le16RoundTrip` | libraries/OTA/src/OTAStaging.cpp:74-87 | Two-byte little-endian reading and writing undo each other |
| `Bytes.Le32RoundTrip` | libraries/OTA/src/OTAStaging.cpp:74-87 | Four-byte little-endian reading and writing undo each other |
| `VersionText.ParseComponent` | libraries/OTA/src/OTAStaging.cpp:261-288 | The digit loop accepts exactly the components of `Component`, with their value and end |
| `VersionText.ParseVersion` | libraries/OTA/src/OTAStaging.cpp:290-296 | Three components in a row equal `Parse` |
| `VersionText.ComponentIff` | libraries/OTA/src/OTAStaging.cpp:261-288 | A component is accepted if and only if its text is the canonical decimal of a 16-bit number followed by the separator |
| `VersionText.ParsePrint` | libraries/OTA/src/OTAStaging.cpp:245-296 | Printing a version gives a canonical field that parses to it |
| `VersionText.PrintParse` | libraries/OTA/src/OTAStaging.cpp:245-296 | A canonical field that parses is the printed form of its version |
| `VersionText.VersionFieldIff` | libraries/OTA/src/OTAStaging.cpp:245-296 | A field is accepted with version v if and only if it is the zero-padded text of v |
| `VersionText.DecimalIsPrinted` | src/core/arduino/Print.cpp:227-245 | The canonical decimal of a version component is the numeral that the core prints |
| `PackageHeader.HeaderAccepted` | libraries/OTA/src/OTAStaging.cpp:332-443 | A header passes if and only if it encodes metadata that fits, under the id of the trusted key, and is refused for its key if and only if it encodes such metadata under another id |
| `PackageHeader.EncodedFormat` | libraries/OTA/src/OTAStaging.cpp:332-406 | Which error the encoding of well-formed metadata gets: image bounds, package size, then addresses, and never format or version |
| `HeaderFaults.HeaderVerdict` | libraries/OTA/src/OTAStaging.cpp:332-406 | A header passes if and only if none of its 21 fields is faulty, each with its own requirement; otherwise the answer is that of a first fault: formats of the envelope before its versions, then sizes, then formats, versions, texts and addresses of the descriptor, then the key id |
| `HeaderFaults.FieldsCover` | libraries/OTA/src/OTAStaging.cpp:332-406 | The 21 fields are the whole header, byte for byte |
| `HeaderFaults.MagicTexts` | libraries/OTA/src/OTAStaging.cpp:332-366 | The two magic numbers are the texts AZPKG001 and AZOTA001 |
| `HeaderChecks.IsAllZero` | libraries/OTA/src/OTAStaging.cpp:235-243 | Gathering the bits of all bytes gives zero exactly if every byte is zero |
| `HeaderChecks.IsCanonical` | libraries/OTA/src/OTAStaging.cpp:245-259 | The terminator loop accepts exactly the canonical fields |
| `HeaderChecks.IsSourceCommit` | libraries/OTA/src/OTAStaging.cpp:298-309 | The loop accepts exactly lower-case hexadecimal text |
| `HeaderChecks.CheckFormat` | libraries/OTA/src/OTAStaging.cpp:332-406 | The checks in their order give the error of `FormatError`, and the metadata filled in field by field is that of `Decode` |
| `PackageHeader.DecodeEncode` | libraries/OTA/src/OTAStaging.cpp:332-406 | Encoding well-formed metadata that fits the partitions gives a header that passes and decodes to it |
| `PackageHeader.EncodeDecode` | libraries/OTA/src/OTAStaging.cpp:332-406 | A header that passes the format checks is reproduced byte for byte from its metadata and key id |
| `PackageHeader.CanonicalHeader` | libraries/OTA/src/OTAStaging.cpp:332-406 | A header passes the format checks if and only if its metadata is well formed, fits and encodes to it |
| `RingBuffer.RingBuffer.constructor` | src/core/arduino/RingBuffer.cpp:13-19 | An empty queue of the given capacity |
| `RingBuffer.RingBuffer.Putc` | src/core/arduino/RingBuffer.cpp:26-37 | Appends the byte if there is room and returns -1 either way |
| `RingBuffer.RingBuffer.Put` | src/core/arduino/RingBuffer.cpp:39-54 | Appends the longest prefix that fits, across the wrap-around, and returns its length |
| `RingBuffer.RingBuffer.Peek` | src/core/arduino/RingBuffer.cpp:56-63 | The oldest byte, or -1 |
| `RingBuffer.RingBuffer.Getc` | src/core/arduino/RingBuffer.cpp:65-75 | Removes and returns the oldest byte, or -1 |
| `RingBuffer.RingBuffer.Get` | src/core/arduino/RingBuffer.cpp:77-92 | Removes the longest prefix available and copies it, leaving the rest of the destination alone |
| `RingBuffer.RingBuffer.Available` | src/core/arduino/RingBuffer.cpp:94-101 | The room left, capacity minus contents |
| `RingBuffer.RingBuffer.Use` | src/core/arduino/RingBuffer.cpp:103-112 | The number of bytes held |
| `RingBuffer.RingBuffer.Clear` | src/core/arduino/RingBuffer.cpp:114-118 | Empties the queue |
| `RingBuffer.FullExactly` | src/core/arduino/RingBuffer.cpp:26-112 | The two index tests, full and empty, mean capacity reached and nothing held |
| `RingBuffer.Replay` | src/core/arduino/RingBuffer.cpp:26-118 | Any sequence of operations on the object gives the output and contents of a bounded FIFO |
| `RingBuffer.NothingLeaks` | src/core/arduino/RingBuffer.cpp:26-92 | Without clear, the bytes accepted are those given out followed by those held |
| `RingBuffer.ProducerKeeps` | src/core/arduino/RingBuffer.cpp:26-37 | Each single read or write of one putc keeps the shared invariant |
| `RingBuffer.ConsumerKeeps` | src/core/arduino/RingBuffer.cpp:65-75 | Each single read or write of one getc keeps the shared invariant |
| `RingBuffer.NothingLostOrInvented` | src/core/arduino/RingBuffer.cpp:26-75 | Under every interleaving of one putc caller and one getc caller the bytes taken are a prefix of the bytes accepted, the difference is what lies in the buffer, and a call that moved no byte found the buffer full when it read addr_r, or empty when it read addr_w |
| `FlashBlockDevice.BlockDevice.EraseWrite` | libraries/FileSystem/src/SFlashBlockDevice.cpp:95-133 | Read, erase and write back: only the 512-byte sector changes, its 4 KiB neighbours stay |
| `FlashBlockDevice.BlockDevice.WriteSectors` | libraries/FileSystem/src/SFlashBlockDevice.cpp:143-157 | The sector loop replaces exactly the sectors named |
| `FlashBlockDevice.BlockDevice.ReadSectors` | libraries/FileSystem/src/SFlashBlockDevice.cpp:80-93 | The sector loop returns exactly the sectors named |
| `FlashBlockDevice.BlockDevice.Program` | libraries/FileSystem/src/SFlashBlockDevice.cpp:56-62 | Programming replaces the sectors that the byte-sized count covers, and nothing else |
| `FlashBlockDevice.BlockDevice.Read` | libraries/FileSystem/src/SFlashBlockDevice.cpp:48-54 | Reading returns the sectors that the byte-sized count covers |
| `FlashBlockDevice.ProgramIsComplete` | libraries/FileSystem/src/SFlashBlockDevice.cpp:56-62 | A request stores its data where it should on every device if and only if it is empty, or aligned, in whole sectors and shorter than 256 of them |
| `FlashBlockDevice.ReadIsComplete` | libraries/FileSystem/src/SFlashBlockDevice.cpp:48-54 | A read returns the bytes asked for on every device under exactly the same condition |
| `FlashBlockDevice.ProgramOf256SectorsIsLost` | libraries/FileSystem/src/SFlashBlockDevice.cpp:56-62 | A request of 256 sectors changes nothing, because the count is truncated to a byte |
| `FlashBlockDevice.LastWriteWins` | libraries/FileSystem/src/SFlashBlockDevice.cpp:48-157 | After any history of aligned requests each sector holds what was programmed there last |
| `FlashBlockDevice.ProgramThenRead` | libraries/FileSystem/src/SFlashBlockDevice.cpp:48-157 | The device itself, after any such history, reads back what was programmed last |
| `TopicFilter.IsTopicMatched` | libraries/MQTT/src/MQTTClient.h:395-424 | For a well-formed filter the two-cursor loop says yes if and only if the levels match by section 4.7.1 of MQTT 3.1.1 and every wildcard has a non-empty level to consume |
| `TopicFilter.WalkIsStrict` | libraries/MQTT/src/MQTTClient.h:395-424 | The walk over characters is a walk over levels |
| `TopicFilter.StrictIff` | libraries/MQTT/src/MQTTClient.h:395-424 | That walk over levels is the standard match with fed wildcards, both ways |
| `TopicFilter.Decides` | libraries/MQTT/src/MQTTClient.h:395-424 | The same for the function that the loop refines |
| `TopicFilter.NarrowerThanTheStandard` | libraries/MQTT/src/MQTTClient.h:395-424 | Three filters that match by the standard and are refused by the code |
| `FirmwareVersion.FwVersionCompare` | libraries/AzureIoT/src/DevKitOTAUtils.cpp:30-60 | The nested loops compute `Compare`, whose three answers are the order of the numbers in the dot-separated parts (`FirmwareVersion.CompareOrder`), a null version below all others |
| `FirmwareVersion.ReadComponent` | libraries/AzureIoT/src/DevKitOTAUtils.cpp:30-60 | The inner loop reads one component value, the decimal number of its digits (`FirmwareVersion.AccumulateMeaning`), and stops at the dot |
| `FirmwareVersion.ValuesArePartValues` | libraries/AzureIoT/src/DevKitOTAUtils.cpp:30-60 | The values read from dot to dot are the decimal numbers that the digits of the dot-separated parts write |
| `FirmwareVersion.AccumulateMeaning` | libraries/AzureIoT/src/DevKitOTAUtils.cpp:30-60 | A component counts as the positional decimal number of its digits, in their order |
| `FirmwareVersion.AccumulateNumeral` | libraries/AzureIoT/src/DevKitOTAUtils.cpp:30-60 | The printed decimal of every number counts as that number |
| `FirmwareVersion.OthersAreIgnored` | libraries/AzureIoT/src/DevKitOTAUtils.cpp:30-60 | A character that is not a digit makes no difference, wherever it stands in a component |
| `FirmwareVersion.PrintedOrder` | libraries/AzureIoT/src/DevKitOTAUtils.cpp:30-60 | Versions printed from numbers compare as these numbers do, component by component and padded with zeros, in all three cases |
| `FirmwareVersion.CompareOrder` | libraries/AzureIoT/src/DevKitOTAUtils.cpp:30-60 | Any two versions compare as the numbers in their parts do, and a null version is below every other and equal to itself |
| `FirmwareVersion.CompareMeaning` | libraries/AzureIoT/src/DevKitOTAUtils.cpp:30-60 | The three answers mean lexicographically less, greater and equal after padding with zeros, and nothing else |
| `FirmwareVersion.CompareAntisymmetric` | libraries/AzureIoT/src/DevKitOTAUtils.cpp:30-60 | Swapping the versions negates the answer |
| `FirmwareVersion.CompareTransitive` | libraries/AzureIoT/src/DevKitOTAUtils.cpp:30-60 | The order is transitive, strictly so if one step is strict |
| `NumberText.PrintNumber` | src/core/arduino/Print.cpp:227-245 | The backwards-filled buffer is the numeral of n, a base below 2 meaning 10, written up to its first NUL, and 33 cells suffice |
| `NumberText.PrintedInFull` | src/core/arduino/Print.cpp:227-245 | Every number is printed in full if and only if the base is at most 201, because the digit 201 is a NUL |
| `NumberText.PrintLong` | src/core/arduino/Print.cpp:125-138 | The decimal text with its sign, for every 32-bit number |
| `NumberText.NumeralLength` | src/core/arduino/Print.cpp:227-245 | A numeral of a number below 2^k has at most k digits in any base, so that the buffer is never overrun |
| `NumberText.NumeralDenotes` | src/core/arduino/Print.cpp:227-245 | Reading a numeral in its base, up to 36, gives the number back |
| `NumberText.TextStream.PeekNextDigit` | src/core/arduino/Stream.cpp:60-72 | Consumes everything before the next digit or minus sign |
| `NumberText.TextStream.ParseInt` | src/core/arduino/Stream.cpp:138-162 | The accumulating loop computes `Parse`: value, rest of the stream, and whether every intermediate value fits 32 bits |
| `NumberText.NumeralFolds` | src/core/arduino/Stream.cpp:138-162 | Folding the digits of n gives n, and no intermediate value overflows if and only if n is at most 2^31 - 49 |
| `NumberText.PrintParseRoundTrip` | src/core/arduino/Stream.cpp:138-162 | The printed text of n, after any text without digits or minus signs, parses as n, safely exactly when the magnitude is at most 2147483599 |
| `NumberText.ParseMeaning` | src/core/arduino/Stream.cpp:138-162 | For every text with a digit or minus sign and every skip character: leading junk is passed over, a minus sign counts unless it is the skip character, skip characters are dropped, and the value is the decimal number of the digits up to the first other character, which is left in the stream |
| `NumberText.ParseTimesOut` | src/core/arduino/Stream.cpp:138-162 | A stream without a digit or minus sign is used up and gives zero |
| `NumberText.ParseCases` | src/core/arduino/Stream.cpp:138-162 | Every text is of one of these two kinds |
| `IpAddress.IPAddress.FromString` | src/core/arduino/IPAddress.cpp:47-87 | Succeeds if and only if the text is four dot-separated parts that the code accepts as octets, and then stores them; on failure exactly the octets before the first part that is none, before the fourth part or before the last one were stored, and the other bytes stay |
| `IpAddress.IPAddress.PrintTo` | src/core/arduino/IPAddress.cpp:121-131 | The four octets in decimal with dots between |
| `IpAddress.Decides` | src/core/arduino/IPAddress.cpp:47-87 | The character scan decides by parts, both ways |
| `IpAddress.RefusedText` | src/core/arduino/IPAddress.cpp:47-87 | What the scan of a refused text has stored, in terms of the parts between the dots |
| `IpAddress.AddressRoundTrip` | src/core/arduino/IPAddress.cpp:121-131 | The printed text of any four octets is accepted and restores them |

## Left out

- Signature arithmetic and whether the point of a key lies on the curve: the signature check is an arbitrary function returning 0, -2 or anything else.
- `OTAStagingGetStatus`, the error names, the replacement of the platform for tests and null function pointers in it: they would add only easy members.
- Callbacks that call back into the engine: the admission and cancellation callbacks answer and return.
- The error code for overflow, which no path returns.
- Metadata and payload size that a rejected header leaves behind in a closed session: the functions keep only what a later call can see.
- StagingEngine.StagingEngine.Write: the byte buffers inside the session (header, signature, vectors) are sequences in a record that the object replaces, not arrays updated in place, so aliasing between them and the caller's buffer is not captured.
- StagingTheorems.PartitionHoldsPayload: takes the partition to start at a sector boundary and an erase to leave other partitions alone; speaks of successful operations; what a failed erase or write leaves on flash is unknown, and the session is over then.
- StagingChunks.ChunkIndependence: holds on a platform whose operations succeed within their limits and whose verdicts depend on the header alone; with a failing platform the cut of the chunks decides when a failure is seen.
- RingBuffer.NothingLostOrInvented: one putc caller and one getc caller, each read and write taking effect at once and in program order, the two reads of a comparison in either order; put and get compute the room twice and are modelled sequentially only, and negative lengths are not modelled.
- FlashBlockDevice.BlockDevice.Program: requests that reach beyond the device are a caller error and not modelled; the flash erases every 4 KiB sector it touches, and a write only clears bits.
- TopicFilter.IsTopicMatched: filters with a wildcard inside a level or a `#` before the end are not modelled, nor is the rule of section 4.7.2 of MQTT 3.1.1 for names that start with a dollar sign, which the code does not have.
- FirmwareVersion.FwVersionCompare: components beyond the range of a 32-bit int are not modelled, because the source overflows there.
- NumberText.PrintLong: negation is taken to wrap on 32 bits, which C++ leaves open for the smallest number; the raw-byte output of base 0 and floating point are not modelled.
- NumberText.TextStream.ParseInt: a time-out is the end of the input; the accumulator is unbounded and a flag says whether it ever leaves 32 bits.
- The deprecated download path of the OTA library, the rest of the MQTT client, the WebSocket, WiFi, TCP and UDP classes, the Azure IoT client, the sensors, audio, Wire and SPI drivers, and the archived tooling: input and output through code that is not part of this model.
