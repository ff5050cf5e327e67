/** The records and constants of the staging interface. */
module StagingTypes {
  import opened Bytes
  import Crc16

  const HEADER_SIZE: nat := 320
  const SIGNATURE_SIZE: nat := 64
  const PAYLOAD_OFFSET: nat := 384
  const DESCRIPTOR_OFFSET: nat := 0x200
  const DESCRIPTOR_SIZE: nat := 256
  const SHA256_SIZE: nat := 32
  const VECTOR_SIZE: nat := 8
  const PUBLIC_KEY_SIZE: nat := 91
  const ERASE_BLOCK_SIZE: nat := 4096
  const WRITE_BLOCK_SIZE: nat := 512
  const READ_BACK_BLOCK_SIZE: nat := 512
  const FLASH_OPERATION_MAX_MS: nat := 2000
  const SIGNATURE_MAX_MS: nat := 5000
  const ACTIVATION_MAX_MS: nat := 15000
  const RAM_START_EXCLUSIVE: nat := 0x2000_01C4
  const RAM_END_INCLUSIVE: nat := 0x2004_0000
  /** `size_t` is 32 bits wide on the device. */
  const SIZE_MAX: nat := UINT32_MAX

  datatype State =
    | Idle | Receiving | Verifying | Ready | Activating | Failed | Cancelled | Activated

  datatype Error =
    | Ok
    | InvalidArgument
    | InvalidState
    | Busy
    | PackageSize
    | PackageFormat
    | Unsupported
    | PartitionError
    | ImageBounds
    | KeyFormat
    | KeyMismatch
    | SignatureError
    | SignatureTimeout
    | AdmissionRejected
    | CancelledError
    | EraseError
    | EraseTimeout
    | WriteError
    | ShortWrite
    | WriteTimeout
    | Incomplete
    | TrailingData
    | HashMismatch
    | ReadBackError
    | ReadBackTimeout
    | ReadBackHashMismatch
    | ReadBackCrcMismatch
    | DescriptorMismatch
    | VectorTable
    | ActivationError
    | ActivationUncertain

  datatype Partition = Partition(start: uint32, length: uint32)

  datatype Metadata = Metadata(
    productId: seq<byte>,
    boardId: seq<byte>,
    firmwareVersion: seq<byte>,
    versionMajor: uint16,
    versionMinor: uint16,
    versionPatch: uint16,
    sourceCommit: seq<byte>,
    applicationAddress: uint32,
    applicationCapacity: uint32,
    payloadSize: uint32,
    sha256: seq<byte>)

  function ZeroMetadata(): Metadata {
    Metadata(Zeros(32), Zeros(32), Zeros(32), 0, 0, 0, Zeros(41), 0, 0, 0, Zeros(32))
  }

  datatype ImageInfo = ImageInfo(
    sessionGeneration: uint32,
    payloadSize: uint32,
    crc16: Crc16.Word,
    sha256: seq<byte>,
    metadata: Metadata)

  function ZeroInfo(): ImageInfo {
    ImageInfo(0, 0, Crc16.ZERO, Zeros(32), ZeroMetadata())
  }

  datatype BootTable = BootTable(
    startAddress: uint32,
    length: uint32,
    version: seq<byte>,
    kind: byte,
    upgradeType: byte,
    crc16: Crc16.Word,
    reserved: seq<byte>)

  /** What a session is begun with. */
  datatype Params = Params(
    packageSize: nat,
    publicKey: seq<byte>,
    hasAdmission: bool,
    hasCancellation: bool,
    application: Partition,
    ota: Partition)
}
