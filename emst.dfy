/**
 * The encrypted export of the trie (the "encrypted Merkle snapshot").
 *
 * The root and each of its children are serialised, padded with PKCS#7
 * padding (section 6.3 of RFC 5652), encrypted with AES in CBC mode under a
 * key derived from a seed, and emitted in the order of a permutation,
 * each ciphertext beside its node's digest.  The block cipher stays
 * abstract (`AesBlockEncrypt`, `AesBlockDecrypt`); the CBC chaining, the
 * padding, the serialisation and the counting are modelled exactly.
 */
module Emst {
  import opened Primitives
  import opened HashTrie

  /** The AES block size in bytes. */
  const BlockSize: nat := 16

  /** One exported record: a ciphertext and the digest of the node it encrypts. */
  datatype EncryptedNode = EncryptedNode(encryptedData: Bytes, hash: Digest)

  datatype CryptoError =
    | InvalidKeySize(size: nat)       // aes.NewCipher rejects the key
    | NotBlockMultiple(length: nat)   // the ciphertext is not whole blocks

  /** The key lengths `aes.NewCipher` accepts: AES-128, AES-192 and AES-256. */
  predicate ValidKeySize(key: Bytes)
  {
    |key| == 16 || |key| == 24 || |key| == 32
  }

  // ---------------------------------------------------------------------------
  // Padding

  /** `byte(n)`: the conversion keeps the low eight bits. */
  function LowByte(n: nat): byte
  {
    (n % 256) as byte
  }

  lemma LowByteSmall(n: nat)
    requires n < 256
    ensures LowByte(n) as int == n
  {
    assert n % 256 == n;
    assert (n as byte) as int == n;
  }

  /**
   * `pad`: append `blockSize - len(data) % blockSize` copies of that count
   * (as a byte), so the result is whole blocks and at least one byte longer.
   */
  function Pad(data: Bytes, blockSize: nat): (r: Bytes)
    requires blockSize > 0
    ensures |r| % blockSize == 0
    ensures |data| < |r| <= |data| + blockSize
    ensures r[..|data|] == data
    ensures forall k :: |data| <= k < |r| ==> r[k] == LowByte(|r| - |data|)
  {
    var padLen := blockSize - |data| % blockSize;
    PadLengthAligned(|data|, blockSize);
    data + seq(padLen, _ => LowByte(padLen))
  }

  lemma PadLengthAligned(n: nat, b: nat)
    requires b > 0
    ensures (n + (b - n % b)) % b == 0
  {
    var q, r := n / b, n % b;
    assert n == q * b + r;
    assert n + (b - r) == (q + 1) * b + 0;
    DivModUnique(n + (b - r), b, q + 1, 0);
  }

  /** Quotient and remainder are unique. */
  lemma DivModUnique(x: int, b: int, k: int, r: int)
    requires b > 0 && x == k * b + r && 0 <= r < b
    ensures x % b == r && x / b == k
  {
    var d, m := x / b, x % b;
    assert x == d * b + m;
    assert (k - d) * b == m - r;
    if k > d {
      MulAtLeast(k - d, b);
    } else if k < d {
      MulAtLeast(d - k, b);
    }
  }

  lemma MulAtLeast(c: int, b: int)
    requires c >= 1 && b > 0
    ensures c * b >= b
  {
  }

  /** Removing PKCS#7 padding: the last byte says how many bytes to drop. */
  function Unpad(r: Bytes): (d: Option<Bytes>)
    ensures d.Some? ==> |d.value| < |r|
  {
    if |r| == 0 then None
    else
      var n := r[|r| - 1] as int;
      if n == 0 || n > |r| then None else Some(r[..|r| - n])
  }

  /** Padding to blocks of fewer than 256 bytes can always be removed again, and each padding byte is the padding's length. */
  lemma UnpadPad(data: Bytes, blockSize: nat)
    requires 0 < blockSize < 256
    ensures Unpad(Pad(data, blockSize)) == Some(data)
    ensures forall k :: |data| <= k < |Pad(data, blockSize)| ==> Pad(data, blockSize)[k] as int == |Pad(data, blockSize)| - |data|
  {
    var r := Pad(data, blockSize);
    LowByteSmall(|r| - |data|);
  }

  // ---------------------------------------------------------------------------
  // Key derivation and CBC over the abstract block cipher

  /** `prfKey`: the first 16 bytes of the seed's SHA-256 digest, an AES-128 key. */
  function PrfKey(seed: Bytes): (key: Bytes)
    ensures |key| == 16 && ValidKeySize(key)
    ensures Sha256(seed)[..16] == key
  {
    Sha256(seed)[..16]
  }

  function XorBlock(a: Block, b: Block): Block
  {
    seq(16, i requires 0 <= i < 16 => a[i] ^ b[i])
  }

  lemma XorBlockTwice(a: Block, b: Block)
    ensures XorBlock(XorBlock(a, b), b) == a
  {
    forall i | 0 <= i < 16
      ensures XorBlock(XorBlock(a, b), b)[i] == a[i]
    {
      assert (a[i] ^ b[i]) ^ b[i] == a[i];
    }
  }

  /** The chaining value after `c`: its last block, or the IV before any block. */
  function LastBlock(c: Bytes, iv: Block): Block
  {
    if |c| < 16 then iv else c[|c| - 16..]
  }

  /** CBC encryption: each plaintext block is XORed with the previous ciphertext block (the IV first) and enciphered. */
  function CbcEncrypt(key: Bytes, iv: Block, data: Bytes): (c: Bytes)
    requires |data| % 16 == 0
    ensures |c| == |data|
  {
    if |data| == 0 then []
    else
      var n := |data| - 16;
      var prev := CbcEncrypt(key, iv, data[..n]);
      prev + AesBlockEncrypt(key, XorBlock(data[n..], LastBlock(prev, iv)))
  }

  /** CBC decryption: each ciphertext block is deciphered and XORed with the previous ciphertext block (the IV first). */
  function CbcDecrypt(key: Bytes, iv: Block, enc: Bytes): (p: Bytes)
    requires |enc| % 16 == 0
    ensures |p| == |enc|
  {
    if |enc| == 0 then []
    else
      var n := |enc| - 16;
      CbcDecrypt(key, iv, enc[..n]) + XorBlock(AesBlockDecrypt(key, enc[n..]), LastBlock(enc[..n], iv))
  }

  /** With a block cipher whose decryption undoes its encryption, CBC decryption undoes CBC encryption. */
  lemma {:induction false} CbcRoundTrip(key: Bytes, iv: Block, data: Bytes)
    requires Invertible() && |data| % 16 == 0
    ensures CbcDecrypt(key, iv, CbcEncrypt(key, iv, data)) == data
  {
    if |data| > 0 {
      var n := |data| - 16;
      var prev := CbcEncrypt(key, iv, data[..n]);
      var blk := AesBlockEncrypt(key, XorBlock(data[n..], LastBlock(prev, iv)));
      var c := prev + blk;
      assert c[..n] == prev && c[n..] == blk;
      CbcRoundTrip(key, iv, data[..n]);
      XorBlockTwice(data[n..], LastBlock(prev, iv));
      assert data[..n] + data[n..] == data;
    }
  }

  lemma CbcEncryptSnoc(key: Bytes, iv: Block, src: Bytes, off: nat)
    requires off % 16 == 0 && off + 16 <= |src|
    ensures (off + 16) % 16 == 0
    ensures CbcEncrypt(key, iv, src[..off + 16]) ==
            CbcEncrypt(key, iv, src[..off]) + AesBlockEncrypt(key, XorBlock(src[off..off + 16], LastBlock(CbcEncrypt(key, iv, src[..off]), iv)))
  {
    assert src[..off + 16][..off] == src[..off];
    assert src[..off + 16][off..] == src[off..off + 16];
  }

  lemma CbcDecryptSnoc(key: Bytes, iv: Block, enc: Bytes, off: nat)
    requires off % 16 == 0 && off + 16 <= |enc|
    ensures (off + 16) % 16 == 0
    ensures CbcDecrypt(key, iv, enc[..off + 16]) ==
            CbcDecrypt(key, iv, enc[..off]) + XorBlock(AesBlockDecrypt(key, enc[off..off + 16]), LastBlock(enc[..off], iv))
  {
    assert enc[..off + 16][..off] == enc[..off];
    assert enc[..off + 16][off..] == enc[off..off + 16];
  }

  lemma NextBlockFits(off: nat, len: nat)
    requires off % 16 == 0 && len % 16 == 0 && off < len
    ensures off + 16 <= len
  {
    assert off == (off / 16) * 16 && len == (len / 16) * 16;
  }

  /** Write one block into `dst` at `off`, after the bytes already written. */
  method WriteBlock(dst: array<byte>, off: nat, blk: Block)
    requires off + 16 <= dst.Length
    modifies dst
    ensures dst[..off + 16] == old(dst[..off]) + blk
    ensures dst[off + 16..] == old(dst[off + 16..])
  {
    forall k | 0 <= k < 16 {
      dst[off + k] := blk[k];
    }
  }

  /** `CryptBlocks` of a CBC encrypter: fill `dst` block by block. */
  method CbcEncryptInto(key: Bytes, iv: Block, src: Bytes, dst: array<byte>)
    requires |src| % 16 == 0 && dst.Length == |src|
    modifies dst
    ensures dst[..] == CbcEncrypt(key, iv, src)
  {
    var off := 0;
    var chain := iv;
    while off < |src|
      invariant 0 <= off <= |src| && off % 16 == 0
      invariant dst[..off] == CbcEncrypt(key, iv, src[..off])
      invariant chain == LastBlock(dst[..off], iv)
      decreases |src| - off
    {
      NextBlockFits(off, |src|);
      var plain := src[off..off + 16];
      assert |plain| == 16;
      var blk := AesBlockEncrypt(key, XorBlock(plain, chain));
      WriteBlock(dst, off, blk);
      CbcEncryptSnoc(key, iv, src, off);
      chain := blk;
      off := off + 16;
    }
    assert src[..off] == src;
  }

  /** `CryptBlocks` of a CBC decrypter: fill `dst` block by block. */
  method CbcDecryptInto(key: Bytes, iv: Block, enc: Bytes, dst: array<byte>)
    requires |enc| % 16 == 0 && dst.Length == |enc|
    modifies dst
    ensures dst[..] == CbcDecrypt(key, iv, enc)
  {
    var off := 0;
    while off < |enc|
      invariant 0 <= off <= |enc| && off % 16 == 0
      invariant dst[..off] == CbcDecrypt(key, iv, enc[..off])
      decreases |enc| - off
    {
      NextBlockFits(off, |enc|);
      var blk := XorBlock(AesBlockDecrypt(key, enc[off..off + 16]), LastBlock(enc[..off], iv));
      WriteBlock(dst, off, blk);
      CbcDecryptSnoc(key, iv, enc, off);
      off := off + 16;
    }
    assert enc[..off] == enc;
  }

  // ---------------------------------------------------------------------------
  // aesEncrypt and decryptNode

  /** What `aesEncrypt` returns: a key-size error, or the CBC encryption of the padded data with the key's first block as IV. */
  function EncryptResult(data: Bytes, key: Bytes): Result<Bytes, CryptoError>
  {
    if !ValidKeySize(key) then Failure(InvalidKeySize(|key|))
    else Success(CbcEncrypt(key, key[..16], Pad(data, BlockSize)))
  }

  /** What `decryptNode` returns: a key-size error, a block-size error, or the CBC decryption, padding left in place. */
  function DecryptResult(enc: Bytes, key: Bytes): Result<Bytes, CryptoError>
  {
    if !ValidKeySize(key) then Failure(InvalidKeySize(|key|))
    else if |enc| % BlockSize != 0 then Failure(NotBlockMultiple(|enc|))
    else Success(CbcDecrypt(key, key[..16], enc))
  }

  /** `aesEncrypt`. */
  method AesEncrypt(data: Bytes, key: Bytes) returns (r: Result<Bytes, CryptoError>)
    ensures r == EncryptResult(data, key)
  {
    if !ValidKeySize(key) {
      return Failure(InvalidKeySize(|key|));
    }
    var padded := Pad(data, BlockSize);
    var ciphertext := new byte[|padded|];
    CbcEncryptInto(key, key[..16], padded, ciphertext);
    r := Success(ciphertext[..]);
  }

  /** `decryptNode`. */
  method DecryptNode(enc: Bytes, key: Bytes) returns (r: Result<Bytes, CryptoError>)
    ensures r == DecryptResult(enc, key)
  {
    if !ValidKeySize(key) {
      return Failure(InvalidKeySize(|key|));
    }
    if |enc| % BlockSize != 0 {
      return Failure(NotBlockMultiple(|enc|));
    }
    var plaintext := new byte[|enc|];
    CbcDecryptInto(key, key[..16], enc, plaintext);
    r := Success(plaintext[..]);
  }

  /**
   * Encryption fails exactly on a bad key size, and otherwise yields whole
   * blocks, as many bytes as the padded data; decryption fails exactly on a
   * bad key size or a partial block, and otherwise yields as many bytes as
   * it was given.
   */
  lemma CryptoShapes(data: Bytes, enc: Bytes, key: Bytes)
    ensures EncryptResult(data, key).Failure? <==> !ValidKeySize(key)
    ensures EncryptResult(data, key).Success? ==>
      |EncryptResult(data, key).value| == |Pad(data, BlockSize)| && |EncryptResult(data, key).value| % BlockSize == 0
    ensures DecryptResult(enc, key).Failure? <==> !ValidKeySize(key) || |enc| % BlockSize != 0
    ensures DecryptResult(enc, key) == Failure(NotBlockMultiple(|enc|)) <==> ValidKeySize(key) && |enc| % BlockSize != 0
    ensures DecryptResult(enc, key).Success? ==> |DecryptResult(enc, key).value| == |enc|
  {
  }

  /**
   * Under an invertible block cipher, `decryptNode` of what `aesEncrypt`
   * produced is the PADDED plaintext: the padding is not stripped, though
   * it could be (`UnpadPad`).
   */
  lemma DecryptEncrypt(data: Bytes, key: Bytes)
    requires Invertible() && ValidKeySize(key)
    ensures EncryptResult(data, key).Success?
    ensures DecryptResult(EncryptResult(data, key).value, key) == Success(Pad(data, BlockSize))
    ensures Unpad(DecryptResult(EncryptResult(data, key).value, key).value) == Some(data)
  {
    CbcRoundTrip(key, key[..16], Pad(data, BlockSize));
    UnpadPad(data, BlockSize);
  }

  // ---------------------------------------------------------------------------
  // Serialisation

  /** One fact: its three triple hashes, then its data. */
  function ItemBytes(v: TripleItem): Bytes
  {
    v.triple.subjectHash + v.triple.predictHash + v.triple.objectHash + v.data
  }

  /** The facts' bytes in order. */
  function ItemsBytes(vs: seq<TripleItem>): Bytes
  {
    if |vs| == 0 then [] else ItemsBytes(vs[..|vs| - 1]) + ItemBytes(vs[|vs| - 1])
  }

  /** The serialised form of a node: its key, then each fact. */
  function Serialized(n: Node): Bytes
  {
    n.key + ItemsBytes(n.value)
  }

  /** `serializeNode`: write the key, then each fact, into a buffer. */
  method SerializeNode(n: Node) returns (buf: Bytes)
    ensures buf == Serialized(n)
  {
    buf := n.key;
    for i := 0 to |n.value|
      invariant buf == n.key + ItemsBytes(n.value[..i])
    {
      var v := n.value[i];
      assert n.value[..i + 1][..i] == n.value[..i];
      AppendAssoc(n.key, ItemsBytes(n.value[..i]), ItemBytes(v));
      buf := buf + v.triple.subjectHash;
      buf := buf + v.triple.predictHash;
      buf := buf + v.triple.objectHash;
      buf := buf + v.data;
    }
    assert n.value[..|n.value|] == n.value;
  }

  /** The lengths of the facts' data fields. */
  function DataLengths(vs: seq<TripleItem>): (lens: seq<nat>)
    ensures |lens| == |vs|
  {
    seq(|vs|, i requires 0 <= i < |vs| => |vs[i].data|)
  }

  lemma DataLengthsSnoc(vs: seq<TripleItem>, v: TripleItem)
    ensures DataLengths(vs + [v]) == DataLengths(vs) + [|v.data|]
  {
    var a, b := DataLengths(vs + [v]), DataLengths(vs) + [|v.data|];
    assert |a| == |b|;
    forall i | 0 <= i < |a|
      ensures a[i] == b[i]
    {
      if i < |vs| {
        assert (vs + [v])[i] == vs[i];
      }
    }
  }

  function Total(lens: seq<nat>): nat
  {
    if |lens| == 0 then 0 else Total(lens[..|lens| - 1]) + lens[|lens| - 1]
  }

  /** The serialised node is as long as its key, 96 bytes of hashes per fact, and the facts' data. */
  lemma {:induction false} ItemsBytesLength(vs: seq<TripleItem>)
    ensures |ItemsBytes(vs)| == 96 * |vs| + Total(DataLengths(vs))
  {
    if |vs| > 0 {
      var init := vs[..|vs| - 1];
      ItemsBytesLength(init);
      assert DataLengths(vs)[..|vs| - 1] == DataLengths(init);
    }
  }

  lemma SerializedLength(n: Node)
    ensures |Serialized(n)| == |n.key| + 96 * |n.value| + Total(DataLengths(n.value))
    ensures Serialized(n)[..|n.key|] == n.key
  {
    ItemsBytesLength(n.value);
  }

  /** Reading the facts back from the end, given the lengths of their data fields. */
  function ParseItems(b: Bytes, lens: seq<nat>): Option<seq<TripleItem>>
  {
    if |lens| == 0 then (if |b| == 0 then Some([]) else None)
    else
      var size := 96 + lens[|lens| - 1];
      if |b| < size then None
      else
        var last := b[|b| - size..];
        match ParseItems(b[..|b| - size], lens[..|lens| - 1])
        case None => None
        case Some(init) => Some(init + [TripleItem(Triple(last[..32], last[32..64], last[64..96]), last[96..])])
  }

  /** Reading a serialised node back, given its key length and its facts' data lengths. */
  function ParseNode(b: Bytes, keyLen: nat, lens: seq<nat>): Option<(Bytes, seq<TripleItem>)>
  {
    if |b| < keyLen then None
    else match ParseItems(b[keyLen..], lens)
      case None => None
      case Some(vs) => Some((b[..keyLen], vs))
  }

  /** The fields of one serialised fact sit at fixed offsets, the data last. */
  lemma ItemBytesFields(v: TripleItem)
    ensures var w := ItemBytes(v);
      |w| == 96 + |v.data| && w[..32] == v.triple.subjectHash && w[32..64] == v.triple.predictHash &&
      w[64..96] == v.triple.objectHash && w[96..] == v.data
  {
  }

  /** One more serialised fact parses as one more fact. */
  lemma ParseItemsStep(a: Bytes, lens: seq<nat>, init: seq<TripleItem>, v: TripleItem)
    requires ParseItems(a, lens) == Some(init)
    ensures ParseItems(a + ItemBytes(v), lens + [|v.data|]) == Some(init + [v])
  {
    var w := ItemBytes(v);
    ItemBytesFields(v);
    var b := a + w;
    assert b[..|b| - |w|] == a && b[|b| - |w|..] == w;
    assert (lens + [|v.data|])[..|lens|] == lens;
  }

  lemma {:induction false} ParseItemsBytes(vs: seq<TripleItem>)
    ensures ParseItems(ItemsBytes(vs), DataLengths(vs)) == Some(vs)
  {
    if |vs| > 0 {
      var init, v := vs[..|vs| - 1], vs[|vs| - 1];
      ParseItemsBytes(init);
      ParseItemsStep(ItemsBytes(init), DataLengths(init), init, v);
      assert init + [v] == vs;
      DataLengthsSnoc(init, v);
    }
  }

  /** Serialisation loses nothing: with the field lengths, the key and the facts come back. */
  lemma ParseSerialized(n: Node)
    ensures ParseNode(Serialized(n), |n.key|, DataLengths(n.value)) == Some((n.key, n.value))
  {
    var b := Serialized(n);
    assert b[..|n.key|] == n.key && b[|n.key|..] == ItemsBytes(n.value);
    ParseItemsBytes(n.value);
  }

  // ---------------------------------------------------------------------------
  // encryptTrieNodes

  /** Position 0 is the root, position `i + 1` its child `i`. */
  function Member(n: Node, idx: nat): Node
    requires idx <= |n.child|
  {
    if idx == 0 then n else n.child[idx - 1]
  }

  /** The record of the node at one position: its encrypted serialisation and its digest. */
  function Record(n: Node, key: Bytes, idx: nat): EncryptedNode
    requires ValidKeySize(key) && idx <= |n.child|
  {
    var m := Member(n, idx);
    EncryptedNode(EncryptResult(Serialized(m), key).value, m.hash)
  }

  /** The record for one position of the permutation; a position past the children yields none. */
  function RecordFor(n: Node, key: Bytes, idx: nat): seq<EncryptedNode>
    requires ValidKeySize(key)
  {
    if idx <= |n.child| then [Record(n, key, idx)] else []
  }

  /** The records emitted for the first `k` positions of `perm`, in order. */
  function ExportedUpTo(n: Node, key: Bytes, perm: seq<nat>, k: nat): seq<EncryptedNode>
    requires ValidKeySize(key) && k <= |perm|
  {
    if k == 0 then [] else ExportedUpTo(n, key, perm, k - 1) + RecordFor(n, key, perm[k - 1])
  }

  /** The records emitted for the positions `perm`, in order. */
  function Exported(n: Node, key: Bytes, perm: seq<nat>): seq<EncryptedNode>
    requires ValidKeySize(key)
  {
    ExportedUpTo(n, key, perm, |perm|)
  }

  /**
   * `encryptTrieNodes` with the random permutation as a parameter: derive
   * the key, then for each position emit the encrypted serialisation of
   * the root or of that child beside its digest.  The key always has 16
   * bytes, so `aesEncrypt` cannot fail here and the export always succeeds.
   */
  method EncryptTrieNodes(n: Node, seed: Bytes, permute: seq<nat>) returns (r: Result<seq<EncryptedNode>, CryptoError>)
    ensures r == Success(Exported(n, PrfKey(seed), permute))
  {
    var encrypted: seq<EncryptedNode> := [];
    var key := PrfKey(seed);
    for i := 0 to |permute|
      invariant encrypted == ExportedUpTo(n, key, permute, i)
    {
      var idx := permute[i];
      if idx == 0 {
        var data := SerializeNode(n);
        var enc := AesEncrypt(data, key);
        encrypted := encrypted + [EncryptedNode(enc.value, n.hash)];
      } else if idx - 1 < |n.child| {
        var c := n.child[idx - 1];
        var data := SerializeNode(c);
        var enc := AesEncrypt(data, key);
        encrypted := encrypted + [EncryptedNode(enc.value, c.hash)];
      }
    }
    r := Success(encrypted);
  }

  // ---------------------------------------------------------------------------
  // What the export contains

  function Range(count: nat): seq<nat>
  {
    seq(count, i requires 0 <= i < count => i)
  }

  /** `rand.Perm(count)`: each of `0 .. count - 1` exactly once. */
  ghost predicate IsPermutation(perm: seq<nat>, count: nat)
  {
    multiset(perm) == multiset(Range(count))
  }

  /** The digests of the root and of its children, in tree order. */
  function NodeDigests(n: Node): (ds: seq<Digest>)
    ensures |ds| == |n.child| + 1
  {
    [n.hash] + seq(|n.child|, i requires 0 <= i < |n.child| => n.child[i].hash)
  }

  function RecordDigests(rs: seq<EncryptedNode>): seq<Digest>
  {
    seq(|rs|, i requires 0 <= i < |rs| => rs[i].hash)
  }

  function MemberDigests(n: Node, idxs: seq<nat>): (ds: seq<Digest>)
    requires forall i :: 0 <= i < |idxs| ==> idxs[i] <= |n.child|
    ensures |ds| == |idxs|
  {
    seq(|idxs|, i requires 0 <= i < |idxs| => Member(n, idxs[i]).hash)
  }

  lemma PermutationInRange(perm: seq<nat>, count: nat)
    requires IsPermutation(perm, count)
    ensures |perm| == count
    ensures forall i :: 0 <= i < |perm| ==> perm[i] < count
  {
    assert |multiset(perm)| == |multiset(Range(count))|;
    forall i | 0 <= i < |perm|
      ensures perm[i] < count
    {
      assert perm[i] in multiset(perm);
      assert perm[i] in multiset(Range(count));
    }
  }

  /** For positions in range the export holds one record per position, carrying that member's encryption and digest. */
  lemma ExportedRecords(n: Node, key: Bytes, perm: seq<nat>)
    requires ValidKeySize(key)
    requires forall i :: 0 <= i < |perm| ==> perm[i] <= |n.child|
    ensures |Exported(n, key, perm)| == |perm|
    ensures forall i :: 0 <= i < |perm| ==> Exported(n, key, perm)[i] == Record(n, key, perm[i])
  {
    ExportedUpToRecords(n, key, perm, |perm|);
  }

  lemma {:induction false} ExportedUpToRecords(n: Node, key: Bytes, perm: seq<nat>, k: nat)
    requires ValidKeySize(key) && k <= |perm|
    requires forall i :: 0 <= i < |perm| ==> perm[i] <= |n.child|
    ensures |ExportedUpTo(n, key, perm, k)| == k
    ensures forall i :: 0 <= i < k ==> ExportedUpTo(n, key, perm, k)[i] == Record(n, key, perm[i])
  {
    if k > 0 {
      ExportedUpToRecords(n, key, perm, k - 1);
      var prev := ExportedUpTo(n, key, perm, k - 1);
      var last := [Record(n, key, perm[k - 1])];
      assert ExportedUpTo(n, key, perm, k) == prev + last;
      forall i | 0 <= i < k
        ensures ExportedUpTo(n, key, perm, k)[i] == Record(n, key, perm[i])
      {
        if i < k - 1 {
          assert (prev + last)[i] == prev[i];
        } else {
          assert |prev| == i;
          assert (prev + last)[i] == last[0];
        }
      }
    }
  }

  /** The digests of the records are those of the members at the permuted positions. */
  lemma ExportedDigests(n: Node, key: Bytes, perm: seq<nat>)
    requires ValidKeySize(key)
    requires forall i :: 0 <= i < |perm| ==> perm[i] <= |n.child|
    ensures RecordDigests(Exported(n, key, perm)) == MemberDigests(n, perm)
  {
    ExportedRecords(n, key, perm);
  }

  lemma MemberDigestsAppend(n: Node, u: seq<nat>, v: seq<nat>)
    requires forall i :: 0 <= i < |u| ==> u[i] <= |n.child|
    requires forall i :: 0 <= i < |v| ==> v[i] <= |n.child|
    ensures forall i :: 0 <= i < |u + v| ==> (u + v)[i] <= |n.child|
    ensures MemberDigests(n, u + v) == MemberDigests(n, u) + MemberDigests(n, v)
  {
  }

  /** Positions with the same multiset have digests with the same multiset. */
  lemma {:induction false} MemberDigestsMultiset(n: Node, a: seq<nat>, b: seq<nat>)
    requires multiset(a) == multiset(b)
    requires forall i :: 0 <= i < |a| ==> a[i] <= |n.child|
    requires forall i :: 0 <= i < |b| ==> b[i] <= |n.child|
    ensures multiset(MemberDigests(n, a)) == multiset(MemberDigests(n, b))
  {
    if |a| == 0 {
      assert |b| == |multiset(b)| == 0;
    } else {
      var x := a[|a| - 1];
      var a' := a[..|a| - 1];
      var j := RemoveLast(a, b);
      var u, v := b[..j], b[j + 1..];
      MemberDigestsMultiset(n, a', u + v);
      DigestsOfSplit(n, a, a', b, u, v, x);
    }
  }

  /** The last of `a` occurs in `b` at some `j`; without them the two have equal multisets. */
  lemma RemoveLast(a: seq<nat>, b: seq<nat>) returns (j: nat)
    requires |a| > 0 && multiset(a) == multiset(b)
    ensures j < |b| && b[j] == a[|a| - 1]
    ensures a == a[..|a| - 1] + [a[|a| - 1]] && b == b[..j] + [b[j]] + b[j + 1..]
    ensures multiset(a[..|a| - 1]) == multiset(b[..j] + b[j + 1..])
  {
    var x := a[|a| - 1];
    assert a == a[..|a| - 1] + [x];
    assert x in multiset(b);
    j :| 0 <= j < |b| && b[j] == x;
    var a', u, v := a[..|a| - 1], b[..j], b[j + 1..];
    assert b == u + [x] + v;
    calc {
      multiset(a') + multiset{x};
      multiset(a' + [x]);
      multiset(b);
      multiset(u + [x] + v);
      multiset(u) + multiset{x} + multiset(v);
      multiset(u + v) + multiset{x};
    }
    assert multiset(a') == (multiset(a') + multiset{x}) - multiset{x};
    assert multiset(u + v) == (multiset(u + v) + multiset{x}) - multiset{x};
  }

  lemma DigestsOfSplit(n: Node, a: seq<nat>, a': seq<nat>, b: seq<nat>, u: seq<nat>, v: seq<nat>, x: nat)
    requires a == a' + [x] && b == u + [x] + v
    requires forall i :: 0 <= i < |a| ==> a[i] <= |n.child|
    requires forall i :: 0 <= i < |b| ==> b[i] <= |n.child|
    ensures forall i :: 0 <= i < |a'| ==> a'[i] <= |n.child|
    ensures forall i :: 0 <= i < |u + v| ==> (u + v)[i] <= |n.child|
    ensures multiset(MemberDigests(n, a')) == multiset(MemberDigests(n, u + v)) ==>
            multiset(MemberDigests(n, a)) == multiset(MemberDigests(n, b))
  {
    assert x == a[|a'|];
    assert forall i :: 0 <= i < |a'| ==> a'[i] == a[i];
    assert forall i :: 0 <= i < |u| ==> u[i] == b[i];
    assert forall i :: 0 <= i < |v| ==> v[i] == b[|u| + 1 + i];
    MemberDigestsAppend(n, a', [x]);
    MemberDigestsAppend(n, u, [x]);
    MemberDigestsAppend(n, u + [x], v);
    MemberDigestsAppend(n, u, v);
  }

  /**
   * On a permutation of the root and its children, the export holds exactly
   * one record per node: as many records as nodes, the multiset of their
   * digests that of the root and its children whatever the order, and
   * record `i` the encryption of the node at position `perm[i]`.
   */
  lemma ExportContents(n: Node, seed: Bytes, perm: seq<nat>)
    requires IsPermutation(perm, |n.child| + 1)
    ensures |perm| == |n.child| + 1 && forall i :: 0 <= i < |perm| ==> perm[i] <= |n.child|
    ensures |Exported(n, PrfKey(seed), perm)| == |n.child| + 1
    ensures multiset(RecordDigests(Exported(n, PrfKey(seed), perm))) == multiset(NodeDigests(n))
    ensures forall i :: 0 <= i < |perm| ==> Exported(n, PrfKey(seed), perm)[i] == Record(n, PrfKey(seed), perm[i])
  {
    var key := PrfKey(seed);
    PermutationInRange(perm, |n.child| + 1);
    ExportedRecords(n, key, perm);
    ExportedDigestsMultiset(n, key, perm);
  }

  /** On a permutation, the records' digests are those of the root and its children, as a multiset. */
  lemma ExportedDigestsMultiset(n: Node, key: Bytes, perm: seq<nat>)
    requires ValidKeySize(key) && IsPermutation(perm, |n.child| + 1)
    ensures multiset(RecordDigests(Exported(n, key, perm))) == multiset(NodeDigests(n))
  {
    PermutationInRange(perm, |n.child| + 1);
    ExportedDigests(n, key, perm);
    var range := Range(|n.child| + 1);
    MemberDigestsMultiset(n, perm, range);
    assert MemberDigests(n, range) == NodeDigests(n);
  }

  /**
   * The first record of such an export decrypts, under the same seed's
   * key, to non-empty bytes; under an invertible block cipher those bytes
   * are the padded serialisation of the node at position `perm[0]`.
   */
  lemma FirstRecordDecrypts(n: Node, seed: Bytes, perm: seq<nat>)
    requires IsPermutation(perm, |n.child| + 1)
    ensures |perm| > 0 && perm[0] <= |n.child|
    ensures |Exported(n, PrfKey(seed), perm)| > 0
    ensures var d := DecryptResult(Exported(n, PrfKey(seed), perm)[0].encryptedData, PrfKey(seed));
      d.Success? && |d.value| > 0 &&
      (Invertible() ==> d.value == Pad(Serialized(Member(n, perm[0])), BlockSize))
  {
    ExportContents(n, seed, perm);
    PermutationInRange(perm, |n.child| + 1);
    var m := Member(n, perm[0]);
    if Invertible() {
      DecryptEncrypt(Serialized(m), PrfKey(seed));
    }
  }

  /**
   * `TestEncryptedTrie`: "Alice knows Bob" and "Alice likes Music" inserted
   * into a new trie; its export under a seed has records, and the first one
   * decrypts under the seed's key to non-empty bytes.  The digests stand
   * for the terms' hashes and `perm` for the random permutation.
   */
  method EncryptedScenario(alice: Digest, knows: Digest, bob: Digest, likes: Digest, music: Digest,
                           d1: Bytes, d2: Bytes, seed: Bytes, perm: seq<nat>)
    returns (records: seq<EncryptedNode>, decrypted: Bytes)
    requires var t1 := TripleItem(Triple(alice, knows, bob), d1);
      var t2 := TripleItem(Triple(alice, likes, music), d2);
      IsPermutation(perm, |TripleInserted(TripleInserted(EmptyRoot, t1), t2).child| + 1)
    ensures |records| > 0 && |decrypted| > 0
  {
    var t := new Trie();
    t.TripleInsert(TripleItem(Triple(alice, knows, bob), d1));
    t.TripleInsert(TripleItem(Triple(alice, likes, music), d2));
    var r := EncryptTrieNodes(t.root, seed, perm);
    records := r.value;
    FirstRecordDecrypts(t.root, seed, perm);
    var d := DecryptNode(records[0].encryptedData, PrfKey(seed));
    decrypted := d.value;
  }
}
