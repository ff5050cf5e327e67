/** Bytes, fixed-width unsigned integers and the little-endian readers shared by the models. */
module Bytes {

  type byte = x: int | 0 <= x < 256

  type uint16 = x: int | 0 <= x < 0x1_0000

  type uint32 = x: int | 0 <= x < 0x1_0000_0000

  type int32 = x: int | -0x8000_0000 <= x < 0x8000_0000

  const UINT16_MAX: int := 0xFFFF
  const UINT32_MAX: int := 0xFFFF_FFFF

  /** The codes of '0' to '9'. */
  predicate IsDigitCode(c: int) { 48 <= c <= 57 }

  datatype Option<+T> = None | Some(value: T)

  function Min(a: int, b: int): (m: int)
    ensures m <= a && m <= b && (m == a || m == b)
  {
    if a < b then a else b
  }

  /** `n` zero bytes, what `memset(p, 0, n)` leaves behind. */
  function Zeros(n: nat): (s: seq<byte>)
    ensures |s| == n && forall i | 0 <= i < n :: s[i] == 0
  {
    seq<byte>(n, _ => 0)
  }

  /** The contents of `buffer` after `memcpy(buffer + at, data, |data|)`. */
  function Splice<T>(buffer: seq<T>, at: nat, data: seq<T>): (s: seq<T>)
    requires at + |data| <= |buffer|
    ensures |s| == |buffer|
  {
    buffer[..at] + data + buffer[at + |data|..]
  }

  function Concat<T>(chunks: seq<seq<T>>): seq<T> {
    if chunks == [] then [] else chunks[0] + Concat(chunks[1..])
  }

  lemma {:induction false} ConcatLast<T>(chunks: seq<seq<T>>)
    requires chunks != []
    ensures Concat(chunks) == Concat(chunks[..|chunks| - 1]) + chunks[|chunks| - 1]
    decreases |chunks|
  {
    if |chunks| > 1 {
      ConcatLast(chunks[1..]);
      assert chunks[1..][..|chunks| - 2] == chunks[..|chunks| - 1][1..];
    }
  }

  function Le16(bytes: seq<byte>): (v: uint16)
    requires |bytes| == 2
  {
    bytes[0] as int + 0x100 * bytes[1] as int
  }

  function Le32(bytes: seq<byte>): (v: uint32)
    requires |bytes| == 4
  {
    Le16(bytes[..2]) as int + 0x1_0000 * Le16(bytes[2..]) as int
  }

  function ToLe16(v: uint16): (bytes: seq<byte>)
    ensures |bytes| == 2
  {
    [v % 0x100, v / 0x100]
  }

  function ToLe32(v: uint32): (bytes: seq<byte>)
    ensures |bytes| == 4
  {
    ToLe16(v % 0x1_0000) + ToLe16(v / 0x1_0000)
  }

  /** The two little-endian codecs undo each other, in both directions. */
  lemma Le16RoundTrip(bytes: seq<byte>, v: uint16)
    requires |bytes| == 2
    ensures ToLe16(Le16(bytes)) == bytes
    ensures Le16(ToLe16(v)) == v
  {
  }

  lemma Le32RoundTrip(bytes: seq<byte>, v: uint32)
    requires |bytes| == 4
    ensures ToLe32(Le32(bytes)) == bytes
    ensures Le32(ToLe32(v)) == v
  {
    hide Le16, ToLe16;
    Le16RoundTrip(bytes[..2], v % 0x1_0000);
    Le16RoundTrip(bytes[2..], v / 0x1_0000);
    assert bytes == bytes[..2] + bytes[2..];
    assert ToLe32(v)[..2] == ToLe16(v % 0x1_0000) && ToLe32(v)[2..] == ToLe16(v / 0x1_0000);
  }

  /** Copying the next stretch of a stream behind the part already stored. */
  lemma SplicePadded(size: nat, stored: seq<byte>, data: seq<byte>)
    requires |stored| + |data| <= size
    ensures Splice(stored + Zeros(size - |stored|), |stored|, data)
         == (stored + data) + Zeros(size - |stored| - |data|)
  {
  }
}
