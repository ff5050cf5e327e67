/** The header checks as a table: what each field must hold, the answer it gives otherwise, and which fault is first. */
module HeaderFaults {
  import opened Bytes
  import opened StagingTypes
  import opened VersionText
  import opened PackageHeader
  import Sha256

  /** The codes of ASCII characters. */
  function Ascii(text: string): seq<int> { seq(|text|, i requires 0 <= i < |text| => text[i] as int) }

  lemma MagicTexts()
    ensures PACKAGE_MAGIC == Ascii("AZPKG001") && IMAGE_MAGIC == Ascii("AZOTA001")
  {
  }

  /** The fields of a header, in their order. */
  function Fields(h: Header): (f: seq<seq<byte>>)
    ensures |f| == 21
  {
    EnvelopeFields(h) + DescriptorFields(h)
  }

  function EnvelopeFields(h: Header): (f: seq<seq<byte>>)
    ensures |f| == 8
  {
    [h[0..8], h[8..10], h[10..12], h[12..14], h[14..16], h[16..20], h[20..52], h[52..64]]
  }

  function DescriptorFields(h: Header): (f: seq<seq<byte>>)
    ensures |f| == 13
  {
    [h[64..72], h[72..74], h[74..76], h[76..80], h[80..112], h[112..144], h[144..176], h[176..216],
     h[216..220], h[220..224], h[224..228], h[228..260], h[260..320]]
  }

  /** The content that field `k` must not have. */
  predicate Faulty(p: Params, h: Header, k: nat) {
    hide EnvelopeFields, DescriptorFields, Sha256.Digest;
    FieldSizes(h);
    var f := Fields(h);
    match k
    case 0 => f[0] != Ascii("AZPKG001")
    case 1 => Le16(f[1]) != 1
    case 2 => Le16(f[2]) != 320
    case 3 => Le16(f[3]) != 1
    case 4 => Le16(f[4]) != 64
    case 5 =>
      var size := Le32(f[5]);
      size < 0x300 || size > p.ota.length || size > p.application.length || size + 384 != p.packageSize
      || size + 384 > 0xFFFF_FFFF
    case 7 => !AllZero(f[7])
    case 8 => f[8] != Ascii("AZOTA001")
    case 9 => Le16(f[9]) != 1
    case 10 => Le16(f[10]) != 256
    case 11 => Le32(f[11]) != 1
    case 12 => !Canonical(f[12])
    case 13 => !Canonical(f[13])
    case 14 => !Canonical(f[14]) || Parse(f[14]).None?
    case 15 => !ValidSourceCommit(f[15])
    case 16 =>
      || Le32(f[16]) != p.application.start || p.application.start % 512 != 0
      || p.application.start + p.application.length > 0xFFFF_FFFF || p.ota.start + p.ota.length > 0xFFFF_FFFF
    case 17 => Le32(f[17]) != p.application.length
    case 18 => Le32(f[18]) != 1
    case 19 => f[19] != Sha256.Digest(p.publicKey)
    case 20 => !AllZero(f[20])
    case _ => false
  }

  /** The answer to a fault in field `k`. */
  function FaultOf(p: Params, h: Header, k: nat): Error {
    match k
    case 1 | 3 | 9 | 11 | 18 => Unsupported
    case 5 =>
      if 0x300 <= PayloadSize(h) <= Min(p.ota.length, p.application.length) then PackageSize else ImageBounds
    case 16 | 17 => ImageBounds
    case 19 => KeyMismatch
    case _ => PackageFormat
  }

  /** Faults of a lower rank are answered first: formats before versions, the envelope before the descriptor. */
  function Rank(k: nat): nat {
    match k
    case 0 | 2 | 4 | 7 => 0
    case 1 | 3 => 1
    case 5 => 2
    case 8 | 10 | 20 => 3
    case 9 | 11 | 18 => 4
    case 12 | 13 | 14 | 15 => 5
    case 16 | 17 => 6
    case _ => 7
  }

  lemma FieldSizes(h: Header)
    ensures var f := Fields(h);
      && |f[1]| == |f[2]| == |f[3]| == |f[4]| == |f[9]| == |f[10]| == 2
      && |f[5]| == |f[11]| == |f[16]| == |f[17]| == |f[18]| == 4
      && |f[7]| == 12 && |f[20]| == 60 && |f[12]| == |f[13]| == |f[14]| == 32
  {
  }

  // ----- the checks, field by field

  lemma EnvelopeByFields(h: Header)
    ensures var f := Fields(h);
      && (EnvelopeFormat(h) <==>
            f[0] == PACKAGE_MAGIC && Le16(f[2]) == 320 && Le16(f[4]) == 64 && AllZero(f[7]))
      && (EnvelopeSupported(h) <==> Le16(f[1]) == 1 && Le16(f[3]) == 1)
      && PayloadSize(h) == Le32(f[5])
  {
    hide Le16, Le32, AllZero, DescriptorFields;
    assert h[..8] == h[0..8];
  }

  lemma DescriptorSlice(h: Header, from: nat, to: nat)
    requires from <= to <= 256
    ensures Descriptor(h)[from..to] == h[64 + from..64 + to]
  {
  }

  lemma DescriptorByFields(h: Header)
    ensures var f, d := Fields(h), Descriptor(h);
      && d[..8] == f[8] && d[8..10] == f[9] && d[10..12] == f[10] && d[12..16] == f[11] && d[16..48] == f[12]
      && d[48..80] == f[13] && d[80..112] == f[14] && d[112..152] == f[15] && d[152..156] == f[16]
      && d[156..160] == f[17] && d[160..164] == f[18] && KeyId(h) == f[19] && d[196..256] == f[20]
  {
    hide EnvelopeFields, Descriptor;
    assert Descriptor(h)[..8] == Descriptor(h)[0..8];
    DescriptorSlice(h, 0, 8);
    DescriptorSlice(h, 8, 10);
    DescriptorSlice(h, 10, 12);
    DescriptorSlice(h, 12, 16);
    DescriptorSlice(h, 16, 48);
    DescriptorSlice(h, 48, 80);
    DescriptorSlice(h, 80, 112);
    DescriptorSlice(h, 112, 152);
    DescriptorSlice(h, 152, 156);
    DescriptorSlice(h, 156, 160);
    DescriptorSlice(h, 160, 164);
    DescriptorSlice(h, 164, 196);
    DescriptorSlice(h, 196, 256);
  }

  /** `k` is a faulty field, and none is answered before it. */
  predicate FirstFault(p: Params, h: Header, k: nat) {
    hide Faulty;
    k < 21 && Faulty(p, h, k) && forall j | 0 <= j < 21 && Faulty(p, h, j) :: Rank(k) <= Rank(j)
  }

  lemma EnvelopeStages(p: Params, h: Header)
    ensures !EnvelopeFormat(h) <==> Faulty(p, h, 0) || Faulty(p, h, 2) || Faulty(p, h, 4) || Faulty(p, h, 7)
    ensures !EnvelopeSupported(h) <==> Faulty(p, h, 1) || Faulty(p, h, 3)
    ensures !(SizeInBounds(p, PayloadSize(h)) && SizeMatches(p, PayloadSize(h))) <==> Faulty(p, h, 5)
  {
    hide Fields, Le16, Le32, AllZero, EnvelopeFormat, EnvelopeSupported, PayloadSize, Ascii, Sha256.Digest;
    EnvelopeByFields(h);
    MagicTexts();
  }

  lemma DescriptorStages(p: Params, h: Header)
    ensures var d := Descriptor(h);
      && (!DescriptorFormat(d) <==> Faulty(p, h, 8) || Faulty(p, h, 10) || Faulty(p, h, 20))
      && (!DescriptorSupported(d) <==> Faulty(p, h, 9) || Faulty(p, h, 11) || Faulty(p, h, 18))
      && (!(DescriptorText(d) && Parse(d[80..112]).Some?) <==>
            Faulty(p, h, 12) || Faulty(p, h, 13) || Faulty(p, h, 14) || Faulty(p, h, 15))
      && (!AddressesMatch(p, Le32(d[152..156]), Le32(d[156..160])) <==> Faulty(p, h, 16) || Faulty(p, h, 17))
      && (Sha256.Digest(p.publicKey) != KeyId(h) <==> Faulty(p, h, 19))
  {
    hide Fields, Descriptor, Le16, Le32, AllZero, Canonical, Parse, ValidSourceCommit, KeyId, Ascii, Sha256.Digest;
    DescriptorByFields(h);
    MagicTexts();
  }

  /** A header is accepted exactly if no field is faulty; otherwise the answer is that of the first fault. */
  lemma HeaderVerdict(p: Params, h: Header)
    ensures HeaderError(p, h) == Ok <==> forall k | 0 <= k < 21 :: !Faulty(p, h, k)
    ensures HeaderError(p, h) != Ok ==> exists k :: FirstFault(p, h, k) && HeaderError(p, h) == FaultOf(p, h, k)
  {
    hide Faulty, Descriptor, EnvelopeFormat, EnvelopeSupported, PayloadSize, DescriptorFormat, DescriptorSupported,
         DescriptorText, Parse, AddressesMatch, KeyId, Sha256.Digest, Le32;
    EnvelopeStages(p, h);
    DescriptorStages(p, h);
    assert !Faulty(p, h, 6) by { DigestIsFree(p, h); }
    var k := FindFirst(p, h);
  }

  lemma DigestIsFree(p: Params, h: Header)
    ensures !Faulty(p, h, 6)
  {
    hide Fields;
  }

  lemma FindFirst(p: Params, h: Header) returns (k: nat)
    ensures k == 21 ==> forall j | 0 <= j < 21 :: !Faulty(p, h, j)
    ensures k != 21 ==> FirstFault(p, h, k)
  {
    hide Faulty;
    k := 21;
    for i := 0 to 21
      invariant k == 21 ==> forall j | 0 <= j < i :: !Faulty(p, h, j)
      invariant k != 21 ==> k < i && Faulty(p, h, k) && forall j | 0 <= j < i && Faulty(p, h, j) :: Rank(k) <= Rank(j)
    {
      if Faulty(p, h, i) && (k == 21 || Rank(i) < Rank(k)) {
        k := i;
      }
    }
  }

  /** The fields are the whole header. */
  lemma FieldsCover(h: Header)
    ensures var f := Fields(h);
      h == f[0] + f[1] + f[2] + f[3] + f[4] + f[5] + f[6] + f[7] + f[8] + f[9] + f[10] + f[11] + f[12] + f[13] + f[14]
           + f[15] + f[16] + f[17] + f[18] + f[19] + f[20]
  {
  }
}
