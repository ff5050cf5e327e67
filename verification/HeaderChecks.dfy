/** The header checks in their own, imperative form: loops over fields, in the order of `validateHeader`. */
module HeaderChecks {
  import opened Bytes
  import opened BitStrings
  import opened StagingTypes
  import opened VersionText
  import opened PackageHeader

  lemma {:induction false} ZeroBits(v: nat, n: nat)
    requires v < Power2(n)
    ensures ToBits(v, n) == False(n) <==> v == 0
  {
    BitsRoundTrip(v, n);
    ZeroValue(n);
    assert v == 0 ==> ToBits(v, n) == False(n) by {
      NoBits(n);
    }
  }

  lemma {:induction false} ZeroValue(n: nat)
    ensures Value(False(n)) == 0
  {
    if n > 0 {
      ZeroValue(n - 1);
      assert False(n)[..n - 1] == False(n - 1);
    }
  }

  lemma {:induction false} NoBits(n: nat)
    ensures ToBits(0, n) == False(n)
  {
    if n > 0 {
      NoBits(n - 1);
      assert False(n) == False(n - 1) + [false];
    }
  }

  /** `allZero`: the bits of all bytes are gathered, whatever they are. */
  method IsAllZero(data: seq<byte>) returns (zero: bool)
    ensures zero <==> AllZero(data)
  {
    hide AllZero, Or, ToBits;
    var value := False(8);
    NothingIsZero();
    for i := 0 to |data|
      invariant |value| == 8 && (value == False(8) <==> AllZero(data[..i]))
    {
      OneMoreZero(value, data[..i], data[i]);
      value := Or(value, ToBits(data[i], 8));
      assert data[..i + 1] == data[..i] + [data[i]];
    }
    assert data[..|data|] == data;
    zero := value == False(8);
  }

  lemma NothingIsZero()
    ensures AllZero([])
  {
  }

  lemma OneMoreZero(value: Bits, seen: seq<byte>, b: byte)
    requires |value| == 8 && (value == False(8) <==> AllZero(seen))
    ensures Or(value, ToBits(b, 8)) == False(8) <==> AllZero(seen + [b])
  {
    hide Or, ToBits, False;
    EightBits();
    ZeroBits(b, 8);
    OrIsZero(value, ToBits(b, 8));
    AllZeroAppend(seen, b);
  }

  lemma AllZeroAppend(seen: seq<byte>, b: byte)
    ensures AllZero(seen + [b]) <==> AllZero(seen) && b == 0
  {
    var all := seen + [b];
    if AllZero(all) {
      assert forall i | 0 <= i < |seen| :: seen[i] == all[i];
      assert all[|seen|] == b;
    }
  }

  lemma OrIsZero(a: Bits, b: Bits)
    requires |a| == |b|
    ensures Or(a, b) == False(|a|) <==> a == False(|a|) && b == False(|a|)
  {
    if Or(a, b) == False(|a|) {
      forall i | 0 <= i < |a| ensures !a[i] && !b[i] {
        assert !Or(a, b)[i];
      }
    }
  }

  /** `canonicalString` */
  method IsCanonical(field: seq<byte>) returns (canonical: bool)
    ensures canonical <==> Canonical(field)
  {
    var terminator := 0;
    while terminator < |field| && field[terminator] != 0
      invariant terminator <= |field| && Terminator(field, terminator) == Terminator(field, 0)
    {
      terminator := terminator + 1;
    }
    if terminator == 0 || terminator == |field| {
      return false;
    }
    canonical := IsAllZero(field[terminator..]);
  }

  /** `validSourceCommit` */
  method IsSourceCommit(source: seq<byte>) returns (valid: bool)
    ensures valid <==> ValidSourceCommit(source)
  {
    for i := 0 to |source|
      invariant ValidSourceCommit(source[..i])
    {
      if !((source[i] >= 48 && source[i] <= 57) || (source[i] >= 97 && source[i] <= 102)) {
        assert !HexDigit(source[i]);
        return false;
      }
    }
    assert source[..|source|] == source;
    return true;
  }

  method CheckEnvelope(p: Params, h: Header) returns (error: Error)
    ensures error == EnvelopeError(p, h)
  {
    hide Le16, Le32, AllZero;
    var reserved := IsAllZero(h[52..64]);
    if h[..8] != PACKAGE_MAGIC || Le16(h[10..12]) != HEADER_SIZE || Le16(h[14..16]) != SIGNATURE_SIZE || !reserved {
      return PackageFormat;
    }
    if Le16(h[8..10]) != 1 || Le16(h[12..14]) != 1 {
      return Unsupported;
    }
    var size := Le32(h[16..20]);
    if size < DESCRIPTOR_OFFSET + DESCRIPTOR_SIZE || size > p.ota.length || size > p.application.length {
      return ImageBounds;
    }
    if size > SIZE_MAX - PAYLOAD_OFFSET || size + PAYLOAD_OFFSET != p.packageSize {
      return PackageSize;
    }
    return Ok;
  }

  method CheckText(d: seq<byte>) returns (ok: bool)
    requires |d| == 256
    ensures ok <==> DescriptorText(d)
  {
    hide Canonical, ValidSourceCommit;
    ok := IsCanonical(d[16..48]);
    if ok {
      ok := IsCanonical(d[48..80]);
    }
    if ok {
      ok := IsCanonical(d[80..112]);
    }
    if ok {
      ok := IsSourceCommit(d[112..152]);
    }
  }

  method CheckDescriptor(p: Params, d: seq<byte>) returns (error: Error, version: Version)
    requires |d| == 256
    ensures error == DescriptorError(p, d)
    ensures error == Ok ==> Canonical(d[80..112]) && Parse(d[80..112]) == Some(version)
  {
    hide Le16, Le32, AllZero, Canonical, ValidSourceCommit, Parse;
    version := Version(0, 0, 0);
    var reserved := IsAllZero(d[196..256]);
    if d[..8] != IMAGE_MAGIC || Le16(d[10..12]) != DESCRIPTOR_SIZE || !reserved {
      return PackageFormat, version;
    }
    if Le16(d[8..10]) != 1 || Le32(d[12..16]) != 1 || Le32(d[160..164]) != 1 {
      return Unsupported, version;
    }
    var text := CheckText(d);
    if !text {
      return PackageFormat, version;
    }
    CanonicalEnds(d[80..112]);
    var parsed := ParseVersion(d[80..112]);
    if parsed.None? {
      return PackageFormat, version;
    }
    var address, capacity := Le32(d[152..156]), Le32(d[156..160]);
    if address % 0x200 != 0 || address != p.application.start || capacity != p.application.length
       || p.application.start > UINT32_MAX - p.application.length || p.ota.start > UINT32_MAX - p.ota.length {
      return ImageBounds, version;
    }
    return Ok, parsed.value;
  }

  /** `validateHeader` up to the key: the error of the format checks, and the metadata of a header that passes. */
  method CheckFormat(p: Params, h: Header) returns (error: Error, metadata: Metadata)
    ensures error == FormatError(p, h)
    ensures error == Ok ==> metadata == Decode(h)
  {
    hide EnvelopeError, DescriptorError, Canonical, Parse, Le32;
    metadata := ZeroMetadata();
    error := CheckEnvelope(p, h);
    if error != Ok {
      return;
    }
    var d, version := Descriptor(h), Version(0, 0, 0);
    error, version := CheckDescriptor(p, d);
    if error != Ok {
      return;
    }
    metadata := Metadata(d[16..48], d[48..80], d[80..112], version.major, version.minor, version.patch,
                         d[112..152] + [0], Le32(d[152..156]), Le32(d[156..160]), Le32(h[16..20]), h[20..52]);
  }
}
