/** The hand-written streaming SHA-256 of the staging engine, against FIPS 180-4. */
module Sha256 {
  import opened Bytes
  import opened BitStrings

  const TWO64: nat := 0x1_0000_0000_0000_0000

  const TWO32: nat := 0x1_0000_0000

  type Word = w: seq<bool> | |w| == 32 witness False(32)

  const K0: seq<nat> := [
    0x428A2F98, 0x71374491, 0xB5C0FBCF, 0xE9B5DBA5,
    0x3956C25B, 0x59F111F1, 0x923F82A4, 0xAB1C5ED5]
  const K8: seq<nat> := [
    0xD807AA98, 0x12835B01, 0x243185BE, 0x550C7DC3,
    0x72BE5D74, 0x80DEB1FE, 0x9BDC06A7, 0xC19BF174]
  const K16: seq<nat> := [
    0xE49B69C1, 0xEFBE4786, 0x0FC19DC6, 0x240CA1CC,
    0x2DE92C6F, 0x4A7484AA, 0x5CB0A9DC, 0x76F988DA]
  const K24: seq<nat> := [
    0x983E5152, 0xA831C66D, 0xB00327C8, 0xBF597FC7,
    0xC6E00BF3, 0xD5A79147, 0x06CA6351, 0x14292967]
  const K32: seq<nat> := [
    0x27B70A85, 0x2E1B2138, 0x4D2C6DFC, 0x53380D13,
    0x650A7354, 0x766A0ABB, 0x81C2C92E, 0x92722C85]
  const K40: seq<nat> := [
    0xA2BFE8A1, 0xA81A664B, 0xC24B8B70, 0xC76C51A3,
    0xD192E819, 0xD6990624, 0xF40E3585, 0x106AA070]
  const K48: seq<nat> := [
    0x19A4C116, 0x1E376C08, 0x2748774C, 0x34B0BCB5,
    0x391C0CB3, 0x4ED8AA4A, 0x5B9CCA4F, 0x682E6FF3]
  const K56: seq<nat> := [
    0x748F82EE, 0x78A5636F, 0x84C87814, 0x8CC70208,
    0x90BEFFFA, 0xA4506CEB, 0xBEF9A3F7, 0xC67178F2]

  /** The constants of section 4.2.2 of FIPS 180-4. */
  const K: seq<nat> := K0 + K8 + K16 + K24 + K32 + K40 + K48 + K56

  const H0: seq<nat> := [
    0x6A09E667, 0xBB67AE85, 0x3C6EF372, 0xA54FF53A, 0x510E527F, 0x9B05688C, 0x1F83D9AB, 0x5BE0CD19]

  function Initial(): (h: seq<Word>)
    ensures |h| == 8 && forall i | 0 <= i < 8 :: h[i] == ToBits(H0[i], 32)
  {
    seq<Word>(8, i requires 0 <= i < 8 => ToBits(H0[i], 32))
  }

  // ----- the functions of sections 4.1.2 and 6.2 of FIPS 180-4

  function RotR(x: Word, n: nat): Word
    requires n < 32
  {
    x[32 - n..] + x[..32 - n]
  }

  function ShR(x: Word, n: nat): Word
    requires n < 32
  {
    False(n) + x[..32 - n]
  }

  function Add(x: Word, y: Word): Word { ToBits((Value(x) + Value(y)) % TWO32, 32) }

  function Ch(x: Word, y: Word, z: Word): Word { Xor(And(x, y), And(Not(x), z)) }
  function Maj(x: Word, y: Word, z: Word): Word { Xor(Xor(And(x, y), And(x, z)), And(y, z)) }
  function Sum0(x: Word): Word { Xor(Xor(RotR(x, 2), RotR(x, 13)), RotR(x, 22)) }
  function Sum1(x: Word): Word { Xor(Xor(RotR(x, 6), RotR(x, 11)), RotR(x, 25)) }
  function Sigma0(x: Word): Word { Xor(Xor(RotR(x, 7), RotR(x, 18)), ShR(x, 3)) }
  function Sigma1(x: Word): Word { Xor(Xor(RotR(x, 17), RotR(x, 19)), ShR(x, 10)) }

  function Be32(b: seq<byte>): Word
    requires |b| == 4
  {
    ToBits(b[0], 8) + ToBits(b[1], 8) + ToBits(b[2], 8) + ToBits(b[3], 8)
  }

  function W(block: seq<byte>, t: nat): Word
    requires |block| == 64
  {
    if t < 16 then Be32(block[4 * t..4 * t + 4])
    else Add(Add(Add(W(block, t - 16), Sigma0(W(block, t - 15))), W(block, t - 7)), Sigma1(W(block, t - 2)))
  }

  datatype Registers = Registers(a: Word, b: Word, c: Word, d: Word, e: Word, f: Word, g: Word, h: Word)

  function Round(r: Registers, k: Word, w: Word): Registers {
    var t1 := Add(Add(Add(Add(r.h, Sum1(r.e)), Ch(r.e, r.f, r.g)), k), w);
    var t2 := Add(Sum0(r.a), Maj(r.a, r.b, r.c));
    Registers(Add(t1, t2), r.a, r.b, r.c, Add(r.d, t1), r.e, r.f, r.g)
  }

  function Rounds(r: Registers, block: seq<byte>, t: nat): Registers
    requires |block| == 64 && t <= 64
  {
    if t == 0 then r else Round(Rounds(r, block, t - 1), ToBits(K[t - 1], 32), W(block, t - 1))
  }

  function Load(h: seq<Word>): Registers
    requires |h| == 8
  {
    Registers(h[0], h[1], h[2], h[3], h[4], h[5], h[6], h[7])
  }

  function AddTo(h: seq<Word>, r: Registers): (sum: seq<Word>)
    requires |h| == 8
    ensures |sum| == 8
  {
    [Add(h[0], r.a), Add(h[1], r.b), Add(h[2], r.c), Add(h[3], r.d),
     Add(h[4], r.e), Add(h[5], r.f), Add(h[6], r.g), Add(h[7], r.h)]
  }

  function Compress(h: seq<Word>, block: seq<byte>): (h': seq<Word>)
    requires |h| == 8 && |block| == 64
    ensures |h'| == 8
  {
    AddTo(h, Rounds(Load(h), block, 64))
  }

  /** The hash value after the blocks of `data`. */
  function Fold(data: seq<byte>): (h: seq<Word>)
    requires |data| % 64 == 0
    ensures |h| == 8
    decreases |data|
  {
    if data == [] then Initial()
    else Compress(Fold(data[..|data| - 64]), data[|data| - 64..])
  }

  // ----- padding, section 5.1.1

  /** Byte `i` of a 64-bit number, the least significant first. */
  function ByteAt(n: nat, i: nat): byte
    requires i < 8
  {
    OctetOf(ToBits(n, 64)[56 - 8 * i..64 - 8 * i])
  }

  function Be64(n: nat): (b: seq<byte>)
    ensures |b| == 8
  {
    seq<byte>(8, i requires 0 <= i < 8 => ByteAt(n, 7 - i))
  }

  /** The length of the message in bits, as the 64-bit counter holds it. */
  function BitLength(length: nat): nat { 8 * length % TWO64 }

  function ZeroCount(length: nat): nat { (55 - length) % 64 }

  function Pad(message: seq<byte>): (padded: seq<byte>)
    ensures |padded| % 64 == 0
  {
    message + [0x80] + Zeros(ZeroCount(|message|)) + Be64(BitLength(|message|))
  }

  function WordBytes(w: Word): (b: seq<byte>)
    ensures |b| == 4
  {
    [OctetOf(w[..8]), OctetOf(w[8..16]), OctetOf(w[16..24]), OctetOf(w[24..])]
  }

  function OctetOf(bits: Bits): byte
    requires |bits| == 8
  {
    ValueRoundTrip(bits);
    assert Power2(8) == 256;
    Value(bits)
  }

  function HashBytes(h: seq<Word>): (b: seq<byte>)
    ensures |b| == 4 * |h|
  {
    if h == [] then [] else HashBytes(h[..|h| - 1]) + WordBytes(h[|h| - 1])
  }

  /** SHA-256 as FIPS 180-4 states it: pad the whole message, fold the compression function over its blocks. */
  function Digest(message: seq<byte>): (digest: seq<byte>)
    ensures |digest| == 32
  {
    HashBytes(Fold(Pad(message)))
  }

  /** The zero bits after the one bit are the fewest that make the length 448 modulo 512. */
  lemma PaddingIsMinimal(length: nat, k: nat)
    ensures (8 * length + 1 + (8 * ZeroCount(length) + 7)) % 512 == 448
    ensures (8 * length + 1 + k) % 512 == 448 ==> 8 * ZeroCount(length) + 7 <= k
  {
  }

  lemma FoldBlock(data: seq<byte>)
    requires |data| >= 64 && |data| % 64 == 0
    ensures Fold(data) == Compress(Fold(data[..|data| - 64]), data[|data| - 64..])
  {
    hide Compress;
  }

  /** The part of a length that fills whole blocks. */
  function Whole(n: nat): (w: nat)
    ensures w <= n < w + 64 && w % 64 == 0
  {
    n / 64 * 64
  }

  lemma WholeGrows(n: nat, k: nat)
    requires n - Whole(n) + k <= 64
    ensures Whole(n + k) == if n - Whole(n) + k == 64 then Whole(n) + 64 else Whole(n)
  {
  }

  lemma BitLengthGrows(n: nat, k: nat)
    ensures (BitLength(n) + 8 * k) % TWO64 == BitLength(n + k)
  {
    var q := 8 * n / TWO64;
    assert 8 * n == TWO64 * q + BitLength(n);
    ModShift(BitLength(n) + 8 * k, q);
  }

  lemma ModShift(x: int, q: int)
    ensures (x + TWO64 * q) % TWO64 == x % TWO64
  {
    var y := x + TWO64 * q;
    assert y / TWO64 == x / TWO64 + q;
  }

  /** How the padded message ends: in the block that holds the tail, or in one block more. */
  lemma PadEnds(m: seq<byte>, tail: seq<byte>, head: seq<byte>, last: seq<byte>)
    requires tail == m[Whole(|m|)..]
    requires |tail| + 1 <= 56 ==>
      && head == m[..Whole(|m|)]
      && last == tail + [0x80] + Zeros(55 - |tail|) + Be64(BitLength(|m|))
    requires |tail| + 1 > 56 ==>
      && head == m[..Whole(|m|)] + (tail + [0x80] + Zeros(63 - |tail|))
      && last == Zeros(56) + Be64(BitLength(|m|))
    ensures Pad(m) == head + last
  {
    hide Be64, BitLength;
    assert m == m[..Whole(|m|)] + tail;
    if |tail| + 1 > 56 {
      assert ZeroCount(|m|) == 119 - |tail|;
      assert Zeros(119 - |tail|) == Zeros(63 - |tail|) + Zeros(56);
    } else {
      assert ZeroCount(|m|) == 55 - |tail|;
    }
  }

  /** Below 2^61 bytes the last eight bytes of the padding spell the length of the message in bits. */
  lemma LengthFieldExact(length: nat)
    requires length < 0x2000_0000_0000_0000
    ensures Value(Stream(Be64(BitLength(length)))) == 8 * length
  {
    hide ToBits, Value, Power2;
    var n := BitLength(length);
    var b, bits := Be64(n), ToBits(n, 64);
    forall i | 0 <= i < 8
      ensures ToBits(b[i], 8) == bits[8 * i..8 * i + 8]
    {
      ValueRoundTrip(bits[8 * i..8 * i + 8]);
    }
    StreamAt(b, bits);
    Power2Of64();
    BitsRoundTrip(n, 64);
  }

  lemma Power2Of64()
    ensures Power2(64) == TWO64
  {
    assert Power2(8) == 256;
    Power2Add(8, 8);
    Power2Add(16, 16);
    Power2Add(32, 32);
  }

  lemma {:induction false} StreamAt(b: seq<byte>, bits: Bits)
    requires |bits| == 8 * |b|
    requires forall i | 0 <= i < |b| :: ToBits(b[i], 8) == bits[8 * i..8 * i + 8]
    ensures Stream(b) == bits
  {
    hide ToBits;
    if b != [] {
      forall i | 0 <= i < |b| - 1
        ensures ToBits(b[1..][i], 8) == bits[8..][8 * i..8 * i + 8]
      {
        assert ToBits(b[i + 1], 8) == bits[8 * (i + 1)..8 * (i + 1) + 8];
        assert bits[8..][8 * i..8 * i + 8] == bits[8 * (i + 1)..8 * (i + 1) + 8];
      }
      StreamAt(b[1..], bits[8..]);
      assert bits == bits[0..8] + bits[8..];
    }
  }

  // ----- the streaming context

  class Sha256Context {
    const state: array<Word>
    const block: array<byte>
    var bitCount: nat
    var blockSize: nat
    /** Every byte absorbed since the last initialisation. */
    ghost var message: seq<byte>

    ghost predicate Valid()
      reads this, state, block
    {
      && state.Length == 8 && block.Length == 64
      && blockSize == |message| - Whole(|message|)
      && bitCount == BitLength(|message|)
      && state[..] == Fold(message[..Whole(|message|)])
      && block[..blockSize] == message[Whole(|message|)..]
    }

    constructor ()
      ensures Valid() && message == []
      ensures fresh(state) && fresh(block)
    {
      state := new Word[8];
      block := new byte[64](_ => 0);
      new;
      Init();
    }

    /** A structure assignment: the copy absorbs further bytes on its own. */
    constructor Copy(other: Sha256Context)
      requires other.Valid()
      ensures Valid() && message == other.message
      ensures fresh(state) && fresh(block)
    {
      hide Fold, BitLength, Whole;
      state, block := new Word[8], new byte[64];
      bitCount, blockSize, message := other.bitCount, other.blockSize, other.message;
      new;
      forall i | 0 <= i < 8 { state[i] := other.state[i]; }
      forall i | 0 <= i < 64 { block[i] := other.block[i]; }
      assert state[..] == other.state[..];
      assert block[..blockSize] == other.block[..blockSize];
    }

    /** `sha256Init` */
    method Init()
      requires state.Length == 8 && block.Length == 64
      modifies this, state
      ensures Valid() && message == []
    {
      hide ToBits;
      for i := 0 to 8
        invariant forall j | 0 <= j < i :: state[j] == Initial()[j]
      {
        state[i] := ToBits(H0[i], 32);
      }
      bitCount, blockSize, message := 0, 0, [];
      assert state[..] == Initial();
    }

    /** `sha256Transform`: the message schedule and the 64 rounds, in place on the hash value. */
    method Transform()
      requires state.Length == 8 && block.Length == 64
      modifies state
      ensures state[..] == Compress(old(state[..]), block[..])
    {
      hide Add, W, Sum0, Sum1, Ch, Maj;
      var words := new Word[64];
      Expand(words);
      var a, b, c, d := state[0], state[1], state[2], state[3];
      var e, f, g, h := state[4], state[5], state[6], state[7];
      for i := 0 to 64
        invariant Registers(a, b, c, d, e, f, g, h) == Rounds(Load(old(state[..])), block[..], i)
        invariant words.Length == 64 && fresh(words)
        invariant forall t | 0 <= t < 64 :: words[t] == W(block[..], t)
        invariant state[..] == old(state[..])
      {
        var temp1 := Add(Add(Add(Add(h, Sum1(e)), Ch(e, f, g)), ToBits(K[i], 32)), words[i]);
        var temp2 := Add(Sum0(a), Maj(a, b, c));
        h := g;
        g := f;
        f := e;
        e := Add(d, temp1);
        d := c;
        c := b;
        b := a;
        a := Add(temp1, temp2);
      }
      AddRegisters(Registers(a, b, c, d, e, f, g, h));
    }

    method AddRegisters(r: Registers)
      requires state.Length == 8
      modifies state
      ensures state[..] == AddTo(old(state[..]), r)
    {
      hide Add;
      state[0], state[1], state[2], state[3] :=
        Add(state[0], r.a), Add(state[1], r.b), Add(state[2], r.c), Add(state[3], r.d);
      state[4], state[5], state[6], state[7] :=
        Add(state[4], r.e), Add(state[5], r.f), Add(state[6], r.g), Add(state[7], r.h);
    }

    method Expand(words: array<Word>)
      requires words.Length == 64 && words != state && block.Length == 64
      modifies words
      ensures forall t | 0 <= t < 64 :: words[t] == W(block[..], t)
    {
      hide Add, Sigma0, Sigma1, Be32;
      for i := 0 to 16
        invariant forall t | 0 <= t < i :: words[t] == W(block[..], t)
      {
        words[i] := Be32(block[4 * i..4 * i + 4]);
        assert block[4 * i..4 * i + 4] == block[..][4 * i..4 * i + 4];
      }
      for i := 16 to 64
        invariant forall t | 0 <= t < i :: words[t] == W(block[..], t)
      {
        words[i] := Add(Add(Add(words[i - 16], Sigma0(words[i - 15])), words[i - 7]), Sigma1(words[i - 2]));
      }
    }

    /** `sha256Update`: any number of bytes, buffered into blocks of 64. */
    method Update(data: seq<byte>)
      requires Valid()
      modifies this, state, block
      ensures Valid() && message == old(message) + data
    {
      hide Fold, BitLength, Whole;
      var at := 0;
      while at < |data|
        invariant 0 <= at <= |data|
        invariant Valid() && message == old(message) + data[..at]
      {
        var available := 64 - blockSize;
        var copied := Min(|data| - at, available);
        Fill(data[at..at + copied]);
        at := at + copied;
        assert data[..at] == data[..at - copied] + data[at - copied..at];
      }
    }

    /** One turn of the update loop. */
    method Fill(part: seq<byte>)
      requires Valid() && 0 < |part| <= 64 - blockSize
      modifies this, state, block
      ensures Valid() && message == old(message) + part
    {
      hide Fold, BitLength, Whole, Compress;
      ghost var full := Whole(|message|);
      WholeGrows(|message|, |part|);
      BitLengthGrows(|message|, |part|);
      Store(blockSize, part);
      assert block[..blockSize + |part|] == message[full..] + part;
      message := message + part;
      blockSize := blockSize + |part|;
      bitCount := (bitCount + 8 * |part|) % TWO64;
      assert block[..blockSize] == message[full..];
      assert message[..full] == old(message)[..full];
      if blockSize == 64 {
        assert block[..] == message[full..] && message[..|message|] == message;
        Transform();
        FoldBlock(message);
        assert state[..] == Fold(message);
        blockSize := 0;
        assert block[..0] == message[|message|..];
      }
    }

    /** `memcpy` and `memset` into the block buffer. */
    method Store(at: nat, part: seq<byte>)
      requires block.Length == 64 && at + |part| <= 64
      modifies block
      ensures block[..] == Splice(old(block[..]), at, part)
    {
      for i := 0 to |part|
        invariant block[..] == Splice(old(block[..]), at, part[..i])
      {
        block[at + i] := part[i];
      }
    }

    /** `sha256Finish`: padding in place, one or two last blocks, big-endian output. */
    method Finish() returns (digest: seq<byte>)
      requires Valid()
      modifies this, state, block
      ensures digest == Digest(old(message))
    {
      hide Fold, Compress, HashBytes, Pad, BitLength, Be64, Whole;
      ghost var m, full := message, Whole(|message|);
      ghost var tail := block[..blockSize];
      var length := bitCount;
      Store(blockSize, [0x80]);
      blockSize := blockSize + 1;
      assert block[..blockSize] == tail + [0x80];
      ghost var head := m[..full];
      if blockSize > 56 {
        Store(blockSize, Zeros(64 - blockSize));
        assert block[..] == tail + [0x80] + Zeros(64 - blockSize);
        Transform();
        head := head + block[..];
        FoldBlock(head);
        assert head[..full] == m[..full] && head[full..] == block[..];
        blockSize := 0;
      }
      Store(blockSize, Zeros(56 - blockSize));
      StoreLength(length);
      PadEnds(m, tail, head, block[..]);
      Transform();
      FoldBlock(head + block[..]);
      assert (head + block[..])[..|head|] == head && (head + block[..])[|head|..] == block[..];
      digest := Emit();
    }

    /** The bit count in the last eight bytes of the block, most significant first. */
    method StoreLength(length: nat)
      requires block.Length == 64
      modifies block
      ensures block[..] == old(block[..56]) + Be64(length)
    {
      for i := 0 to 8
        invariant block[..56] == old(block[..56])
        invariant forall j | 56 <= j < 64 && 63 - j < i :: block[j] == ByteAt(length, 63 - j)
      {
        block[63 - i] := ByteAt(length, i);
      }
    }

    /** The hash value as bytes, most significant first. */
    method Emit() returns (digest: seq<byte>)
      requires state.Length == 8
      ensures digest == HashBytes(state[..])
    {
      digest := [];
      for i := 0 to 8
        invariant digest == HashBytes(state[..i])
      {
        digest := digest + WordBytes(state[i]);
        assert state[..i + 1][..i] == state[..i];
      }
      assert state[..8] == state[..];
    }
  }

  /** `sha256` */
  method Hash(data: seq<byte>) returns (digest: seq<byte>)
    ensures digest == Digest(data)
  {
    hide *;
    var context := new Sha256Context();
    context.Update(data);
    assert [] + data == data;
    digest := context.Finish();
  }

  /** However a message is cut into pieces, empty ones included, the streamed digest is that of the whole. */
  method HashChunks(chunks: seq<seq<byte>>) returns (digest: seq<byte>)
    ensures digest == Digest(Concat(chunks))
  {
    hide Digest, Fold, BitLength, Whole;
    var context := new Sha256Context();
    for i := 0 to |chunks|
      invariant context.Valid() && context.message == Concat(chunks[..i])
      invariant fresh(context) && fresh(context.state) && fresh(context.block)
    {
      context.Update(chunks[i]);
      assert chunks[..i + 1][..i] == chunks[..i];
      ConcatLast(chunks[..i + 1]);
    }
    assert chunks[..|chunks|] == chunks;
    digest := context.Finish();
  }
}
