/**
 * Byte strings, digests and the two cryptographic primitives the index relies on.
 *
 * SHA-256 and the AES block function are library code; here they are
 * uninterpreted constants: Dafny knows only their types (a SHA-256 digest
 * is 32 bytes, an AES block 16 bytes), never their values.
 */
module Primitives {

  type byte = bv8
  type Bytes = seq<byte>

  const ZeroDigest: Bytes := [0, 0, 0, 0, 0, 0, 0, 0, 0, 0, 0, 0, 0, 0, 0, 0, 0, 0, 0, 0, 0, 0, 0, 0, 0, 0, 0, 0, 0, 0, 0, 0]

  /** A SHA-256 output, the `[32]byte` of the Go code. */
  type Digest = s: Bytes | |s| == 32 witness ZeroDigest

  const ZeroBlock: Bytes := [0, 0, 0, 0, 0, 0, 0, 0, 0, 0, 0, 0, 0, 0, 0, 0]

  /** One AES block. */
  type Block = s: Bytes | |s| == 16 witness ZeroBlock

  /** `sha256.Sum256`: an arbitrary but fixed function onto 32-byte digests. */
  const Sha256: Bytes -> Digest

  /** The AES block function and its inverse under a given key (crypto/aes). */
  const AesBlockEncrypt: (Bytes, Block) -> Block
  const AesBlockDecrypt: (Bytes, Block) -> Block

  /** What a correct block cipher provides: decryption undoes encryption under the same key. */
  ghost predicate Invertible()
  {
    forall key: Bytes, b: Block :: AesBlockDecrypt(key, AesBlockEncrypt(key, b)) == b
  }

  datatype Option<+T> = None | Some(value: T)

  datatype Result<+T, +E> = Success(value: T) | Failure(error: E)

  /** Concatenation of byte strings in order, as successive `Write` calls produce. */
  function Flatten(parts: seq<Bytes>): Bytes
  {
    if |parts| == 0 then [] else Flatten(parts[..|parts| - 1]) + parts[|parts| - 1]
  }

  lemma FlattenSnoc(parts: seq<Bytes>, last: Bytes)
    ensures Flatten(parts + [last]) == Flatten(parts) + last
  {
    assert (parts + [last])[..|parts|] == parts;
  }

  lemma AppendAssoc<T>(a: seq<T>, b: seq<T>, c: seq<T>)
    ensures a + b + c == a + (b + c)
  {
  }

  /** No two of the digests share their first byte (so in particular they are pairwise distinct). */
  predicate DistinctLeadingBytes(hs: seq<Digest>)
  {
    forall i, j :: 0 <= i < j < |hs| ==> hs[i][0] != hs[j][0]
  }
}
