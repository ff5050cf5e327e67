/** The fixed 320-byte package header: envelope prefix and image descriptor. */
module PackageHeader {
  import opened Bytes
  import opened StagingTypes
  import opened VersionText
  import Sha256

  type Header = h: seq<byte> | |h| == 320 witness Zeros(320)

  /** "AZPKG001" */
  const PACKAGE_MAGIC: seq<byte> := [65, 90, 80, 75, 71, 48, 48, 49]
  /** "AZOTA001" */
  const IMAGE_MAGIC: seq<byte> := [65, 90, 79, 84, 65, 48, 48, 49]

  function Descriptor(h: Header): (d: seq<byte>)
    ensures |d| == 256
  {
    h[64..320]
  }

  predicate HexDigit(c: byte) { 48 <= c <= 57 || 97 <= c <= 102 }

  predicate ValidSourceCommit(source: seq<byte>) { forall i | 0 <= i < |source| :: HexDigit(source[i]) }

  predicate EnvelopeFormat(h: Header) {
    h[..8] == PACKAGE_MAGIC && Le16(h[10..12]) == HEADER_SIZE && Le16(h[14..16]) == SIGNATURE_SIZE
    && AllZero(h[52..64])
  }

  predicate EnvelopeSupported(h: Header) { Le16(h[8..10]) == 1 && Le16(h[12..14]) == 1 }

  function PayloadSize(h: Header): uint32 { Le32(h[16..20]) }

  predicate SizeInBounds(p: Params, size: uint32) {
    DESCRIPTOR_OFFSET + DESCRIPTOR_SIZE <= size <= p.ota.length && size <= p.application.length
  }

  predicate SizeMatches(p: Params, size: uint32) {
    size <= SIZE_MAX - PAYLOAD_OFFSET && size + PAYLOAD_OFFSET == p.packageSize
  }

  predicate DescriptorFormat(d: seq<byte>)
    requires |d| == 256
  {
    d[..8] == IMAGE_MAGIC && Le16(d[10..12]) == DESCRIPTOR_SIZE && AllZero(d[196..256])
  }

  predicate DescriptorSupported(d: seq<byte>)
    requires |d| == 256
  {
    Le16(d[8..10]) == 1 && Le32(d[12..16]) == 1 && Le32(d[160..164]) == 1
  }

  predicate DescriptorText(d: seq<byte>)
    requires |d| == 256
  {
    Canonical(d[16..48]) && Canonical(d[48..80]) && Canonical(d[80..112]) && ValidSourceCommit(d[112..152])
  }

  predicate AddressesMatch(p: Params, address: uint32, capacity: uint32) {
    && address % 512 == 0
    && address == p.application.start
    && capacity == p.application.length
    && p.application.start <= UINT32_MAX - p.application.length
    && p.ota.start <= UINT32_MAX - p.ota.length
  }

  function EnvelopeError(p: Params, h: Header): Error {
    if !EnvelopeFormat(h) then PackageFormat
    else if !EnvelopeSupported(h) then Unsupported
    else if !SizeInBounds(p, PayloadSize(h)) then ImageBounds
    else if !SizeMatches(p, PayloadSize(h)) then PackageSize
    else Ok
  }

  function DescriptorError(p: Params, d: seq<byte>): Error
    requires |d| == 256
  {
    if !DescriptorFormat(d) then PackageFormat
    else if !DescriptorSupported(d) then Unsupported
    else if !DescriptorText(d) then PackageFormat
    else if Parse(d[80..112]).None? then PackageFormat
    else if !AddressesMatch(p, Le32(d[152..156]), Le32(d[156..160])) then ImageBounds
    else Ok
  }

  /** The checks of `validateHeader` that need neither the key nor the platform, in their order. */
  function FormatError(p: Params, h: Header): Error {
    if EnvelopeError(p, h) != Ok then EnvelopeError(p, h) else DescriptorError(p, Descriptor(h))
  }

  function KeyId(h: Header): (id: seq<byte>)
    ensures |id| == 32
  {
    Descriptor(h)[164..196]
  }

  function HeaderError(p: Params, h: Header): (error: Error)
    ensures error in {Ok, PackageFormat, Unsupported, ImageBounds, PackageSize, KeyMismatch}
    ensures error == Ok ==> FormatError(p, h) == Ok && PayloadSize(h) + PAYLOAD_OFFSET == p.packageSize
  {
    hide Sha256.Digest, KeyId;
    var e := FormatError(p, h);
    if e != Ok then e
    else if Sha256.Digest(p.publicKey) != KeyId(h) then KeyMismatch
    else Ok
  }

  /** The metadata record filled from a header whose text fields passed their checks. */
  function Decode(h: Header): (m: Metadata) {
    var d := Descriptor(h);
    var version := if Canonical(d[80..112]) && Parse(d[80..112]).Some? then Parse(d[80..112]).value
                   else Version(0, 0, 0);
    Metadata(d[16..48], d[48..80], d[80..112], version.major, version.minor, version.patch,
             d[112..152] + [0], Le32(d[152..156]), Le32(d[156..160]), PayloadSize(h), h[20..52])
  }

  // ----- the encoder that host tools implement

  predicate WellFormed(m: Metadata) {
    && |m.productId| == 32 && Canonical(m.productId)
    && |m.boardId| == 32 && Canonical(m.boardId)
    && m.firmwareVersion == Field(Version(m.versionMajor, m.versionMinor, m.versionPatch))
    && |m.sourceCommit| == 41 && ValidSourceCommit(m.sourceCommit[..40]) && m.sourceCommit[40] == 0
    && |m.sha256| == 32
  }

  /** The package and its partitions agree with the metadata. */
  predicate Fits(p: Params, m: Metadata) {
    SizeInBounds(p, m.payloadSize) && SizeMatches(p, m.payloadSize)
    && AddressesMatch(p, m.applicationAddress, m.applicationCapacity)
  }

  function EncodeEnvelope(m: Metadata): (e: seq<byte>)
    requires |m.sha256| == 32
    ensures |e| == 64
  {
    (PACKAGE_MAGIC + ToLe16(1) + ToLe16(320) + ToLe16(1) + ToLe16(64)) + ToLe32(m.payloadSize)
    + m.sha256 + Zeros(12)
  }

  function EncodeTail(m: Metadata, keyId: seq<byte>): (t: seq<byte>)
    requires |keyId| == 32
    ensures |t| == 104
  {
    ToLe32(m.applicationAddress) + ToLe32(m.applicationCapacity) + ToLe32(1) + keyId + Zeros(60)
  }

  function EncodeDescriptor(m: Metadata, keyId: seq<byte>): (d: seq<byte>)
    requires WellFormed(m) && |keyId| == 32
    ensures |d| == 256
  {
    (IMAGE_MAGIC + ToLe16(1) + ToLe16(256) + ToLe32(1)) + m.productId + m.boardId + m.firmwareVersion
    + m.sourceCommit[..40] + EncodeTail(m, keyId)
  }

  function Encode(m: Metadata, keyId: seq<byte>): Header
    requires WellFormed(m) && |keyId| == 32
  {
    EncodeEnvelope(m) + EncodeDescriptor(m, keyId)
  }

  // ----- decoding what was encoded

  lemma EnvelopeSlices(m: Metadata)
    requires |m.sha256| == 32
    ensures var e := EncodeEnvelope(m);
      && e[..8] == PACKAGE_MAGIC && e[8..10] == ToLe16(1) && e[10..12] == ToLe16(320)
      && e[12..14] == ToLe16(1) && e[14..16] == ToLe16(64) && e[16..20] == ToLe32(m.payloadSize)
      && e[20..52] == m.sha256 && e[52..64] == Zeros(12)
  {
    hide ToLe16, ToLe32;
  }

  lemma TailSlices(m: Metadata, keyId: seq<byte>)
    requires |keyId| == 32
    ensures var t := EncodeTail(m, keyId);
      && t[0..4] == ToLe32(m.applicationAddress) && t[4..8] == ToLe32(m.applicationCapacity)
      && t[8..12] == ToLe32(1) && t[12..44] == keyId && t[44..104] == Zeros(60)
  {
    hide ToLe16, ToLe32;
  }

  lemma DescriptorSlices(m: Metadata, keyId: seq<byte>)
    requires WellFormed(m) && |keyId| == 32
    ensures var d := EncodeDescriptor(m, keyId);
      && d[..8] == IMAGE_MAGIC && d[8..10] == ToLe16(1) && d[10..12] == ToLe16(256) && d[12..16] == ToLe32(1)
      && d[16..48] == m.productId && d[48..80] == m.boardId && d[80..112] == m.firmwareVersion
      && d[112..152] == m.sourceCommit[..40] && d[152..256] == EncodeTail(m, keyId)
  {
    hide ToLe16, ToLe32, EncodeTail, Canonical, ValidSourceCommit;
  }

  lemma TailInDescriptor(d: seq<byte>)
    requires |d| == 256
    ensures var t := d[152..256];
      && d[152..156] == t[0..4] && d[156..160] == t[4..8] && d[160..164] == t[8..12]
      && d[164..196] == t[12..44] && d[196..256] == t[44..104]
  {
  }

  lemma EnvelopeInHeader(h: Header)
    ensures var e := h[..64];
      && h[..8] == e[..8] && h[8..10] == e[8..10] && h[10..12] == e[10..12] && h[12..14] == e[12..14]
      && h[14..16] == e[14..16] && h[16..20] == e[16..20] && h[20..52] == e[20..52] && h[52..64] == e[52..64]
  {
  }

  lemma LittleEndianConstants()
    ensures Le16(ToLe16(1)) == 1 && Le16(ToLe16(320)) == 320 && Le16(ToLe16(64)) == 64 && Le16(ToLe16(256)) == 256
    ensures Le32(ToLe32(1)) == 1
  {
    Le32RoundTrip(ToLe32(1), 1);
  }

  lemma EnvelopeAccepted(m: Metadata, keyId: seq<byte>)
    requires WellFormed(m) && |keyId| == 32
    ensures var h := Encode(m, keyId);
      EnvelopeFormat(h) && EnvelopeSupported(h) && PayloadSize(h) == m.payloadSize && h[20..52] == m.sha256
  {
    hide Le16, ToLe16, Le32, ToLe32, EncodeEnvelope, EncodeDescriptor;
    var h := Encode(m, keyId);
    EnvelopeSlices(m);
    assert h[..64] == EncodeEnvelope(m);
    EnvelopeInHeader(h);
    LittleEndianConstants();
    Le32RoundTrip(ToLe32(m.payloadSize), m.payloadSize);
  }

  lemma DescriptorAccepted(m: Metadata, keyId: seq<byte>)
    requires WellFormed(m) && |keyId| == 32
    ensures var d := EncodeDescriptor(m, keyId);
      && DescriptorFormat(d) && DescriptorSupported(d) && DescriptorText(d)
      && Parse(d[80..112]) == Some(Version(m.versionMajor, m.versionMinor, m.versionPatch))
      && Le32(d[152..156]) == m.applicationAddress && Le32(d[156..160]) == m.applicationCapacity
      && d[164..196] == keyId && d[112..152] + [0] == m.sourceCommit
  {
    hide Le16, ToLe16, Le32, ToLe32, EncodeTail, EncodeDescriptor, Canonical, Parse, Field, ValidSourceCommit;
    var d := EncodeDescriptor(m, keyId);
    DescriptorSlices(m, keyId);
    TailSlices(m, keyId);
    TailInDescriptor(d);
    LittleEndianConstants();
    Le32RoundTrip(ToLe32(1), m.applicationAddress);
    Le32RoundTrip(ToLe32(1), m.applicationCapacity);
    ParsePrint(Version(m.versionMajor, m.versionMinor, m.versionPatch));
  }

  lemma DescriptorEncoded(m: Metadata, keyId: seq<byte>)
    requires WellFormed(m) && |keyId| == 32
    ensures Descriptor(Encode(m, keyId)) == EncodeDescriptor(m, keyId)
  {
    hide EncodeEnvelope, EncodeDescriptor, WellFormed;
  }

  /** Which error an encoded header gets: sizes come first, then addresses; format and version are never to blame. */
  lemma EncodedFormat(p: Params, m: Metadata, keyId: seq<byte>)
    requires WellFormed(m) && |keyId| == 32
    ensures FormatError(p, Encode(m, keyId)) ==
      if !SizeInBounds(p, m.payloadSize) then ImageBounds
      else if !SizeMatches(p, m.payloadSize) then PackageSize
      else if !AddressesMatch(p, m.applicationAddress, m.applicationCapacity) then ImageBounds
      else Ok
  {
    hide WellFormed, Encode, EncodeDescriptor, Descriptor, EnvelopeFormat, EnvelopeSupported, PayloadSize, SizeInBounds,
         SizeMatches, DescriptorFormat, DescriptorSupported, DescriptorText, AddressesMatch, Parse, Le32;
    EnvelopeAccepted(m, keyId);
    DescriptorAccepted(m, keyId);
    DescriptorEncoded(m, keyId);
  }

  lemma EncodedDecodes(m: Metadata, keyId: seq<byte>)
    requires WellFormed(m) && |keyId| == 32
    ensures Decode(Encode(m, keyId)) == m && KeyId(Encode(m, keyId)) == keyId
  {
    EnvelopeAccepted(m, keyId);
    DescriptorAccepted(m, keyId);
    DescriptorEncoded(m, keyId);
    DescriptorSlices(m, keyId);
    hide Encode, EncodeDescriptor, Descriptor, EnvelopeFormat, EnvelopeSupported, PayloadSize, DescriptorFormat,
         DescriptorSupported, Canonical, Parse, Field, ValidSourceCommit, Le32;
  }

  /** Every header encoded from fitting metadata passes the checks and decodes to that metadata. */
  lemma DecodeEncode(p: Params, m: Metadata, keyId: seq<byte>)
    requires WellFormed(m) && |keyId| == 32 && Fits(p, m)
    ensures var h := Encode(m, keyId);
      FormatError(p, h) == Ok && Decode(h) == m && KeyId(h) == keyId
  {
    hide WellFormed, Encode, FormatError, Decode, KeyId, SizeInBounds, SizeMatches, AddressesMatch;
    EncodedFormat(p, m, keyId);
    EncodedDecodes(m, keyId);
  }

  // ----- encoding what was decoded

  lemma Le16Back(bytes: seq<byte>, v: uint16)
    requires |bytes| == 2 && Le16(bytes) == v
    ensures bytes == ToLe16(v)
  {
    Le16RoundTrip(bytes, v);
  }

  lemma Le32Back(bytes: seq<byte>, v: uint32)
    requires |bytes| == 4 && Le32(bytes) == v
    ensures bytes == ToLe32(v)
  {
    Le32RoundTrip(bytes, v);
  }

  lemma EnvelopeRebuilt(h: Header, m: Metadata)
    requires EnvelopeFormat(h) && EnvelopeSupported(h)
    requires m.payloadSize == PayloadSize(h) && m.sha256 == h[20..52]
    ensures EncodeEnvelope(m) == h[..64]
  {
    Le16Back(h[8..10], 1);
    Le16Back(h[10..12], 320);
    Le16Back(h[12..14], 1);
    Le16Back(h[14..16], 64);
    Le32Back(h[16..20], m.payloadSize);
    assert h[52..64] == Zeros(12);
    hide Le16, ToLe16, Le32, ToLe32, PayloadSize, AllZero;
    assert h[..64] == (h[..8] + h[8..10] + h[10..12] + h[12..14] + h[14..16]) + h[16..20] + h[20..52] + h[52..64];
  }

  lemma TailRebuilt(d: seq<byte>, m: Metadata)
    requires |d| == 256 && DescriptorFormat(d) && DescriptorSupported(d)
    requires m.applicationAddress == Le32(d[152..156]) && m.applicationCapacity == Le32(d[156..160])
    ensures EncodeTail(m, d[164..196]) == d[152..256]
  {
    Le32Back(d[152..156], m.applicationAddress);
    Le32Back(d[156..160], m.applicationCapacity);
    Le32Back(d[160..164], 1);
    assert d[196..256] == Zeros(60);
    hide Le16, ToLe16, Le32, ToLe32, AllZero;
    assert d[152..256] == d[152..156] + d[156..160] + d[160..164] + d[164..196] + d[196..256];
  }

  lemma DescriptorRebuilt(d: seq<byte>, m: Metadata)
    requires |d| == 256 && DescriptorFormat(d) && DescriptorSupported(d) && WellFormed(m)
    requires m.productId == d[16..48] && m.boardId == d[48..80] && m.firmwareVersion == d[80..112]
    requires m.sourceCommit == d[112..152] + [0]
    requires m.applicationAddress == Le32(d[152..156]) && m.applicationCapacity == Le32(d[156..160])
    ensures EncodeDescriptor(m, d[164..196]) == d
  {
    Le16Back(d[8..10], 1);
    Le16Back(d[10..12], 256);
    Le32Back(d[12..16], 1);
    TailRebuilt(d, m);
    hide Le16, ToLe16, Le32, ToLe32, AllZero, EncodeTail, WellFormed;
    assert m.sourceCommit[..40] == d[112..152];
    assert d == (d[..8] + d[8..10] + d[10..12] + d[12..16]) + d[16..48] + d[48..80] + d[80..112] + d[112..152]
             + d[152..256];
  }

  lemma DecodedFits(p: Params, h: Header)
    requires FormatError(p, h) == Ok
    ensures WellFormed(Decode(h)) && Fits(p, Decode(h))
  {
    var m, d := Decode(h), Descriptor(h);
    assert Canonical(d[80..112]) && Parse(d[80..112]) == Some(Version(m.versionMajor, m.versionMinor, m.versionPatch));
    PrintParse(d[80..112], Version(m.versionMajor, m.versionMinor, m.versionPatch));
    hide Canonical, Parse, Field, Le32, ValidSourceCommit, EnvelopeFormat, DescriptorFormat;
    assert m.sourceCommit[..40] == d[112..152];
  }

  /** Every header that passes the checks is reproduced byte for byte from what was parsed out of it. */
  lemma EncodeDecode(p: Params, h: Header)
    requires FormatError(p, h) == Ok
    ensures WellFormed(Decode(h)) && Fits(p, Decode(h))
    ensures Encode(Decode(h), KeyId(h)) == h
  {
    hide WellFormed, Fits, Canonical, Parse, Field, Le32, ValidSourceCommit, DescriptorFormat, DescriptorSupported,
         EnvelopeFormat, EnvelopeSupported, EncodeEnvelope, EncodeDescriptor;
    var m, d := Decode(h), Descriptor(h);
    DecodedFits(p, h);
    EnvelopeRebuilt(h, m);
    DescriptorRebuilt(d, m);
    assert h == h[..64] + d;
  }

  /** A header passes the format checks exactly when it is the encoding of metadata that fits the session. */
  lemma CanonicalHeader(p: Params, h: Header)
    ensures FormatError(p, h) == Ok <==>
      WellFormed(Decode(h)) && Fits(p, Decode(h)) && Encode(Decode(h), KeyId(h)) == h
  {
    hide FormatError, WellFormed, Fits, Encode, Decode, KeyId;
    if FormatError(p, h) == Ok {
      EncodeDecode(p, h);
    } else if WellFormed(Decode(h)) && Fits(p, Decode(h)) && Encode(Decode(h), KeyId(h)) == h {
      DecodeEncode(p, Decode(h), KeyId(h));
    }
  }

  /** `h` is the header of a package for these partitions, with this key id. */
  predicate Announces(p: Params, m: Metadata, keyId: seq<byte>, h: Header) {
    hide EncodeEnvelope, EncodeDescriptor;
    WellFormed(m) && Fits(p, m) && |keyId| == 32 && h == Encode(m, keyId)
  }

  /**
   * A header passes if and only if it is the encoding of metadata that fits, under the id of the trusted key. The key
   * is to blame if and only if it is such an encoding under another id.
   */
  lemma HeaderAccepted(p: Params, h: Header)
    ensures HeaderError(p, h) == Ok <==> exists m :: Announces(p, m, Sha256.Digest(p.publicKey), h)
    ensures HeaderError(p, h) == KeyMismatch <==>
      exists m, keyId :: Announces(p, m, keyId, h) && keyId != Sha256.Digest(p.publicKey)
  {
    hide FormatError, WellFormed, Fits, Encode, Decode, KeyId, Sha256.Digest;
    if FormatError(p, h) == Ok {
      EncodeDecode(p, h);
      assert Announces(p, Decode(h), KeyId(h), h);
    }
    forall m, keyId | Announces(p, m, keyId, h)
      ensures FormatError(p, h) == Ok && KeyId(h) == keyId
    {
      DecodeEncode(p, m, keyId);
    }
    FormatIsNoKeyError(p, h);
  }

  lemma FormatIsNoKeyError(p: Params, h: Header)
    ensures FormatError(p, h) != KeyMismatch
  {
    hide EnvelopeFormat, EnvelopeSupported, DescriptorFormat, DescriptorSupported, DescriptorText, Parse, Le32;
  }
}
