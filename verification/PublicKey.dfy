/** The one form of public key that Begin takes: a P-256 key as RFC 5480 encodes it. */
module PublicKey {
  import opened Bytes
  import opened StagingTypes
  import opened StagingModel

  /** An arc of an object identifier: seven bits a byte, all bytes but the last marked. */
  function Arc(n: nat): seq<int> { if n < 128 then [n] else Marked(n / 128) + [n % 128] }

  function Marked(n: nat): seq<int> { if n < 128 then [n + 128] else Marked(n / 128) + [n % 128 + 128] }

  function Arcs(arcs: seq<nat>): seq<int> { if arcs == [] then [] else Arc(arcs[0]) + Arcs(arcs[1..]) }

  /** The contents of an object identifier: the first two arcs share a byte. */
  function Oid(first: nat, second: nat, arcs: seq<nat>): seq<int> { [40 * first + second] + Arcs(arcs) }

  /** Tag, length, contents. */
  function Der(tag: int, contents: seq<int>): seq<int>
    requires |contents| < 128
  {
    [tag, |contents|] + contents
  }

  const SEQUENCE := 0x30
  const OBJECT_IDENTIFIER := 6
  const BIT_STRING := 3

  /** id-ecPublicKey, 1.2.840.10045.2.1 */
  function EcPublicKey(): (id: seq<int>)
    ensures id == [0x2A, 0x86, 0x48, 0xCE, 0x3D, 0x02, 0x01]
  {
    Oid(1, 2, [840, 10045, 2, 1])
  }

  /** secp256r1, 1.2.840.10045.3.1.7 */
  function Secp256r1(): (id: seq<int>)
    ensures id == [0x2A, 0x86, 0x48, 0xCE, 0x3D, 0x03, 0x01, 0x07]
  {
    Oid(1, 2, [840, 10045, 3, 1, 7])
  }

  /** The subject public key info of the uncompressed point (x, y). */
  function KeyInfo(x: seq<int>, y: seq<int>): seq<int>
    requires |x| == |y| == 32
  {
    Der(SEQUENCE,
        Der(SEQUENCE, Der(OBJECT_IDENTIFIER, EcPublicKey()) + Der(OBJECT_IDENTIFIER, Secp256r1()))
        + Der(BIT_STRING, [0, 4] + x + y))
  }

  ghost predicate IsKeyInfo(key: seq<byte>) {
    exists x: seq<byte>, y: seq<byte> :: |x| == |y| == 32 && key == KeyInfo(x, y)
  }

  lemma KeyInfoBytes(x: seq<byte>, y: seq<byte>)
    requires |x| == |y| == 32
    ensures KeyInfo(x, y) == PUBLIC_KEY_PREFIX + x + y
  {
    hide EcPublicKey, Secp256r1;
  }

  /** A key is taken exactly if it is such an encoding. */
  lemma KeyForm(key: Option<seq<byte>>)
    ensures ValidPublicKey(key) <==> key.Some? && IsKeyInfo(key.value)
  {
    hide KeyInfo;
    if ValidPublicKey(key) {
      var x, y := key.value[27..59], key.value[59..];
      KeyInfoBytes(x, y);
      assert key.value == PUBLIC_KEY_PREFIX + x + y;
    }
    if key.Some? && IsKeyInfo(key.value) {
      var x: seq<byte>, y: seq<byte> :| |x| == |y| == 32 && key.value == KeyInfo(x, y);
      KeyInfoBytes(x, y);
      assert key.value[..27] == PUBLIC_KEY_PREFIX;
    }
  }
}
