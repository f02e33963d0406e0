# Pistis: verifiable triple index, two-hop query and encrypted export

This project models the core of Pistis. Pistis is a small Go library that stores RDF-style triples in a digest-carrying index, answers a two-pattern SPARQL-like join, and exports the index encrypted. The model is in Dafny, and the proofs cover these parts:

- **Hash-bucket index** (`trie.go`, module `HashTrie`).
  - The "trie" is one level deep. The root's children are buckets, each keyed by a 32-byte component hash.
  - `tripleInsert` files a triple under its subject, predicate and object hashes. It then recomputes every stored digest and publishes the root digest.
  - A node's digest is SHA-256 over its children's digests, then its key, then the three hashes of each of its triples.
  - `tripleQuery` descends into the first bucket whose key starts with the query's first byte.
  - `generateProof` does a depth-first search that returns the digest path to a key.
  - Nodes are immutable values. The `Trie` class owns the root and the published root digest, which the insert methods overwrite.
- **Two-step query** (`vo_sparql.go`, module `VoSparql`).
  - Step 1 is the subject's bucket, filtered on predicate 1.
  - Each survivor's object is the join key. The join key's bucket is filtered on predicate 2.
  - Every joined triple gets a membership proof for its subject and one salted share of its data digest per party.
  - The run keeps a trace.
  - `extendedSPARQL` then keeps the joined triples whose object is a given term.
- **Encrypted export** (`emst.go`, module `Emst`).
  - PKCS#7-style padding, a key made from the first 16 bytes of a SHA-256 digest, and node serialisation.
  - CBC encryption and decryption with the key's first block as IV, over an abstract block cipher.
  - Export of the root and its children in a given permuted order.

Module `Primitives` holds the shared types: bytes, 32-byte digests and 16-byte blocks.
- SHA-256 and the AES block function are uninterpreted constants. Dafny knows their types, but not their values.
- Where a property needs decryption to undo encryption, that is the hypothesis `Invertible()`.

## Model

| member | source | states |
|---|---|---|
| HashTrie.UpdateHash | trie.go:44-66 | Builds `childHash` and the digest input with two loops. The result is the recomputed node `Rehashed(n)`: `childHash` mirrors the children's digests entry for entry, every digest in the subtree is up to date, and keys, items and shape are unchanged. |
| HashTrie.RehashedIsFresh | trie.go:49-65 | After recomputation, every stored digest is SHA-256 of (child digests, then key, then each item's three hashes). |
| HashTrie.RehashedKeepsContent | trie.go:49-65 | Recomputing digests changes no key, item or child count anywhere in the subtree. |
| HashTrie.FreshIsFixpoint | trie.go:49-65 | Recomputing an up-to-date node gives the same node, digests included. |
| HashTrie.RehashedDependsOnContent | trie.go:49-65 | The recomputed digests depend only on keys, items and shape, not on the stale digests they replace. |
| HashTrie.FreshUnique | trie.go:49-65 | Two up-to-date nodes with the same content are equal. The digest is a deterministic function of the subtree. |
| HashTrie.FreshIsAligned | trie.go:50-55 | An up-to-date node has exactly one stored digest per child, at every level. |
| HashTrie.RehashedShape | trie.go:51-55 | Recomputation keeps the child count and the node's key and items, and child `i` becomes the recomputed child `i`. |
| HashTrie.RehashedFrom | trie.go:50-65 | Rebuilding `childHash` from the recomputed children and hashing the node yields `Rehashed(n)`, up to date and synced. |
| HashTrie.FindKey | trie.go:111-117 | The index of the first child keyed by `word`, with no earlier child keyed by it; or none, when no child has that key. |
| HashTrie.NodeInsert | trie.go:130-148 | Its search loop returns `Inserted(n, word, item)`. |
| HashTrie.InsertExisting | trie.go:131-136 | When child `j` is the first keyed by `word`, the item is appended to the end of that child's items and the child is re-hashed. The child count and every other child are unchanged, and so are the node's own stored digests. |
| HashTrie.InsertNew | trie.go:138-147 | When no child is keyed by `word`, exactly one child is appended, keyed by `word` and holding `[item]`. Earlier up-to-date children are unchanged, and the node is re-hashed. |
| HashTrie.NewBucket | trie.go:118-127 | A new bucket keeps every earlier bucket's key and items and is appended last, with key `word` and items `[item]`. |
| HashTrie.InsertedKeys | trie.go:110-128 | The bucket keys after an insert are the old keys, plus `word` at the end if it was new. |
| HashTrie.InsertKeepsDistinctKeys | trie.go:110-128 | If bucket keys are pairwise distinct before an insert, they are after it. |
| HashTrie.InsertKeepsShape | trie.go:110-128 | An insert keeps the trie one level deep, its buckets up to date and its stored digests aligned. |
| HashTrie.InsertedGrowth | trie.go:110-128 | An insert adds at most one bucket, and any new key is `word`. |
| HashTrie.Trie.constructor | trie.go:37-42 | A new trie has an unkeyed empty root and an all-zero root digest. |
| HashTrie.Trie.InsertHash | trie.go:110-128 | The root becomes `Inserted(old root, word, item)`, the published root digest is not touched, and the trie stays valid. |
| HashTrie.Trie.TripleInsert | trie.go:102-108 | The root becomes the triple filed under its subject, predicate and object hashes and fully re-hashed. Afterwards `rootHash == root.hash`, every digest is up to date, and bucket keys stay distinct. |
| HashTrie.TripleInsertShape | trie.go:102-108 | `tripleInsert` adds at most 3 buckets, each keyed by one of the triple's three hashes, and leaves the root up to date. |
| HashTrie.TripleInsertOneLevel | trie.go:102-108 | `tripleInsert` keeps the index one level deep. |
| HashTrie.TripleInsertLookup | trie.go:102-108 | After `tripleInsert`, the bucket of any hash holds its old items followed by the triple, once for each of its components equal to that hash. |
| HashTrie.LookupInserted | trie.go:110-128 | After one insert under `word`, the bucket of `word` gains the item at its end and every other bucket is unchanged. |
| HashTrie.LookupRehashed | trie.go:106 | Recomputing digests changes no bucket's contents. |
| HashTrie.FindKeyExtended | trie.go:118-127 | Appending a bucket changes the first-match lookup only for a key not already present. |
| HashTrie.QueryBucket | trie.go:159-169 | Its loop returns the node's own items if the node is keyed by the query, else those of the first child keyed by it, else nothing. |
| HashTrie.FindLeadingByte | trie.go:151-155 | The first child whose key is non-empty and starts with byte `b`, or none. |
| HashTrie.Trie.Query | trie.go:150-157 | The loop returns `TripleQuery(root, hash)`, so it asks only the first bucket whose key starts with the query's first byte. |
| HashTrie.TripleQueryIsLookup | trie.go:150-169 | When a key's first byte determines the key among the buckets, `tripleQuery` is the exact-match bucket lookup. |
| HashTrie.TripleQueryMissesShadowedBucket | trie.go:151-155 | Suppose an earlier bucket starts with the same byte as a later bucket `k`. Then the query for `k`'s key returns nothing, while the exact-match lookup returns bucket `k`'s items. |
| HashTrie.Dfs | trie.go:78-97 | The search finds a path exactly when some node below is keyed by `target`, and any path it finds is non-empty. |
| HashTrie.DfsFrom | trie.go:83-96 | Searching the children from index `i` on succeeds exactly when one of them is keyed by `target` or has such a descendant. |
| HashTrie.GenerateProof | trie.go:73-100 | The proof is empty exactly when no node below the root is keyed by `target`. |
| HashTrie.ProofOneLevel | trie.go:73-100 | On a one-level trie, the proof is the digest of the first bucket keyed by `target`, or empty. |
| HashTrie.TripleQueryFound | trie.go:150-169 | A non-empty query answer comes from a bucket keyed by the query, so that query's proof is non-empty. |
| HashTrie.ScenarioHits | trie_test.go:55-69 | With the three test triples, "Alice" occurs in triples 1 and 3, "likes" in 2 and 3, and "Pizza" in 2 only. |
| HashTrie.ScenarioStep | trie.go:102-108 | An insert whose hashes are among `hs` keeps bucket keys among `hs`, and appends the triple's hits to the bucket of `h`. |
| HashTrie.QueryFromLookup | trie.go:150-169 | When the bucket keys have distinct first bytes, the query returns the bucket's items. |
| HashTrie.ScenarioTwoInserts | trie_test.go:55-56 | After two inserts into an empty root, the bucket of `h` holds the first triple's hits, then the second's. |
| HashTrie.ScenarioQueries | trie_test.go:55-69 | After three inserts into an empty root, the query by any hash returns the three triples' hits in insertion order. |
| HashTrie.ScenarioQuery | trie.go:102-108 | After one insert into an empty root, the query by any hash returns that triple's hits. |
| HashTrie.TrieScenario | trie_test.go:55-69 | After the three test inserts, "Alice" gives `[t1, t3]` (2 items), "likes" gives `[t2, t3]` (2 items), and "Pizza" gives `[t2]`, whose data is "Bob likes Pizza". |
| VoSparql.XorWithSalt | vo_sparql.go:86-92 | Its loop yields a buffer of the input's length, with byte `i` equal to the input's byte `i` XOR the salt. |
| VoSparql.XorSaltInvolutive | vo_sparql.go:86-92 | Salting twice with the same salt gives back the input. |
| VoSparql.SaltValue | vo_sparql.go:80 | Party `i`'s salt is `(i + 1) mod 256`. |
| VoSparql.DistinctSalts | vo_sparql.go:77-81 | Parties fewer than 256 apart get different salts, so their shares of the same digest differ. |
| VoSparql.SaltWraps | vo_sparql.go:80 | Salts repeat every 256 parties, and party 255's salt is 0, so its share is the bare digest. |
| VoSparql.SecretShare | vo_sparql.go:74-84 | Its loop gives one share per party, in party order: share `i` is owned by party `i` and holds the data digest XOR salt `i`. |
| VoSparql.SharesRecoverDigest | vo_sparql.go:74-84 | There are exactly as many shares as parties; share `i` is owned by party `i`, and unmasking it with salt `i` gives SHA-256 of the data. |
| VoSparql.CompareHash | vo_sparql.go:94-104 | The result is true exactly when the two byte strings have the same length and the same bytes. |
| VoSparql.Matching | vo_sparql.go:124-133 | The filtered list is no longer than its input. |
| VoSparql.MatchingMembers | vo_sparql.go:124-133 | An item is kept exactly when it is in the input and its compared component is the wanted hash. |
| VoSparql.MatchingCounts | vo_sparql.go:124-133 | Each kept item keeps its multiplicity, and every other item drops out. |
| VoSparql.MatchingAppend | vo_sparql.go:127-131 | Filtering a list with one more item appends that item exactly when it matches, so order is kept. |
| VoSparql.MatchingAll | vo_sparql.go:124-133 | When every item matches, the filter returns its input unchanged. |
| VoSparql.MatchingIdempotent | vo_sparql.go:124-133 | Filtering twice by the same hash is filtering once. |
| VoSparql.FilterTripleByObject | vo_sparql.go:124-133 | Its loop returns `Matching(items, Object, hash(objectTerm))`, the order-preserving subsequence of items whose object is the term's digest. |
| VoSparql.JoinTriple | vo_sparql.go:50-57 | Joining one step-2 triple appends it to the results, its subject's proof to the proofs, its shares, and a `Joined` trace line. |
| VoSparql.JoinOnObject | vo_sparql.go:45-58 | One pass of the inner loop appends the join key's bucket, filtered on predicate 2, and keeps proofs and shares in step with the joined list. |
| VoSparql.JoinOneMore | vo_sparql.go:50-57 | Appending one joined triple, with its proof, shares and trace line, preserves the loop's relation between results, proofs, shares and trace. |
| VoSparql.JoinedItemsSnoc | vo_sparql.go:41-59 | One more step-1 triple extends the joined list with its join, and the trace with its join key and joins, exactly when its predicate is predicate 1. |
| VoSparql.ProofsForSnoc | vo_sparql.go:53-55 | The proof of one more joined triple is appended to the flat proof list. |
| VoSparql.SharesOfSnoc | vo_sparql.go:52 | The shares of one more joined triple are appended as one row. |
| VoSparql.SimulateQuery | vo_sparql.go:24-71 | The nested loop returns `Answer(...)`, the result and error described by the lemmas below. |
| VoSparql.JoinedMembers | vo_sparql.go:41-58 | A triple is joined exactly when it has predicate 2 and lies in the bucket of the object of some step-1 triple with predicate 1. |
| VoSparql.JoinedSound | vo_sparql.go:41-58 | Every joined triple comes from such a step-1 triple among those examined. |
| VoSparql.JoinedComplete | vo_sparql.go:41-58 | Every triple with predicate 2 in the bucket of such a step-1 triple's object is joined. |
| VoSparql.JoinLogLength | vo_sparql.go:41-58 | The trace has one join-key line per step-1 triple with predicate 1, plus one line per joined triple. |
| VoSparql.ProofsForEmpty | vo_sparql.go:53-55 | The flat proof list is empty exactly when every joined triple's proof is empty. |
| VoSparql.AnswerOutcome | vo_sparql.go:24-71 | The error is "no result in step 1" exactly when the subject's query is empty. It is "join produced no result" exactly when no triple qualifies for the join. Any error comes with the empty result. Success returns the qualifying triples, and no others. |
| VoSparql.AnswerParts | vo_sparql.go:61-70 | On success the data is the joined list, the proof is its subjects' proofs concatenated in order, the shares are one row per joined triple, and the trace is the two header lines followed by the join trace. |
| VoSparql.SharesOfRecover | vo_sparql.go:74-84 | One row of shares per item, one share per party, each owned by its party, and each unmasks to the item's data digest. |
| VoSparql.AnswerShares | vo_sparql.go:49-70 | On success there are as many share rows as results. Row `i` has one share per party, and share `k` unmasks with salt `k` to the digest of result `i`'s data. |
| VoSparql.AnswerProof | vo_sparql.go:53-55 | On success the proof is empty exactly when no result's subject keys a node of the trie. |
| VoSparql.AnswerTrace | vo_sparql.go:25-59 | On success the trace starts with the subject line and the step-1 count. It then has one line per step-1 triple with predicate 1 and one per result. |
| VoSparql.ExtendedSparql | vo_sparql.go:136-145 | Returns `ExtendedAnswer(...)`: the two-step query followed by the object filter. |
| VoSparql.ExtendedOutcome | vo_sparql.go:136-145 | Errors pass through unchanged, with the empty result. On success the data is exactly the base results whose object is the filter term, with their multiplicities. Proof and shares are unchanged, and exactly one filter line is appended to the trace. |
| VoSparql.FilterKeepsAll | vo_sparql.go:141-144 | When every result already matches the filter, the data is unchanged and only the filter line is added. |
| VoSparql.AnswerSingleJoin | vo_sparql.go:24-71 | With one step-1 triple with predicate 1 whose object's bucket has one triple with predicate 2, the answer is that triple with its proof, its shares and the four-line trace. |
| VoSparql.ExtendedSingleJoin | vo_sparql.go:136-145 | The same query followed by a filter that the joined triple passes gives one result, one row of shares and a non-empty proof. |
| VoSparql.JoinedSubjectProved | vo_sparql.go:53-55 | A triple found in the bucket of its own subject has a non-empty proof. |
| VoSparql.JoinFailsOnSingleTriple | vo_sparql_test.go:94-101 | With a single stored triple and two different predicates, both queries fail with "join produced no result" and return the empty result. |
| VoSparql.ExtendedHits | vo_sparql_test.go:22-53 | With the three test triples, "Bob" occurs in triple 1 only, "NFT123" in all three, and only triple 2 has predicate "type". |
| VoSparql.ExtendedScenario | vo_sparql_test.go:53-68 | After the three inserts, the query (Bob, owns, type, Art) succeeds with exactly "NFT123 is Art". It has one row of 3 shares, each unmasking to that data's digest, and a non-empty proof. |
| VoSparql.FailureHits | vo_sparql_test.go:85-94 | The single test triple is found under "Charlie" and under "NFT456", and "owns" differs from "type". |
| VoSparql.JoinFailureScenario | vo_sparql_test.go:94-101 | After inserting the Charlie triple, the query (Charlie, owns, type, Art) fails with "join produced no result" and 0 results. |
| Emst.Pad | emst.go:18-22 | The padded length is a multiple of the block size and is 1 to `blockSize` bytes longer. The data is a prefix, and every added byte is the count added, truncated to a byte. |
| Emst.UnpadPad | emst.go:18-22 | For blocks under 256 bytes, each padding byte equals the padding length, so stripping the padding gives the data back. |
| Emst.Unpad | emst.go:18-22 | Not an operation of the source (`decryptNode` keeps the padding). It is the PKCS#7 removal that inverts `pad`: it reads the count from the last byte and drops that many bytes, so a successful result is strictly shorter. `Emst.UnpadPad` proves it recovers the data from `pad`. |
| Emst.PrfKey | emst.go:36-39 | The key is the first 16 bytes of SHA-256 of the seed, a valid AES-128 key. |
| Emst.XorBlockTwice | emst.go:31-32 | XORing a block twice with the same chaining value gives it back. |
| Emst.CbcEncrypt | emst.go:31-32 | CBC encryption of whole blocks keeps the length. |
| Emst.CbcDecrypt | emst.go:93-94 | CBC decryption of whole blocks keeps the length. |
| Emst.CbcRoundTrip | emst.go:24-96 | With an invertible block cipher, CBC decryption under the same key and IV undoes CBC encryption. |
| Emst.CbcEncryptSnoc | emst.go:32 | Encrypting one more block appends the cipher of that block XOR the previous ciphertext block, or XOR the IV for the first block. |
| Emst.CbcDecryptSnoc | emst.go:94 | Decrypting one more block appends its deciphered block XOR the previous ciphertext block, or XOR the IV. |
| Emst.WriteBlock | emst.go:32 | Writing a block at an offset keeps the bytes before it, puts the block after them, and leaves every byte after the block unchanged. |
| Emst.CbcEncryptInto | emst.go:30-32 | Filling the output buffer block by block leaves the CBC encryption of the input in it. |
| Emst.CbcDecryptInto | emst.go:92-94 | Filling the output buffer block by block leaves the CBC decryption of the input in it. |
| Emst.AesEncrypt | emst.go:24-34 | Returns `EncryptResult(data, key)`: a key-size error, or the CBC encryption of the padded data with the key's first 16 bytes as IV. |
| Emst.DecryptNode | emst.go:84-96 | Returns `DecryptResult(enc, key)`: a key-size error, a block-size error, or the CBC decryption with the padding left in place. |
| Emst.CryptoShapes | emst.go:24-96 | Encryption fails exactly on an invalid key size, and otherwise returns `len(pad(data, 16))` bytes, a multiple of 16. Decryption fails exactly on a bad key or a ragged length, with the block-size error exactly when the key is valid. Otherwise it keeps the length. |
| Emst.DecryptEncrypt | emst.go:24-96 | With an invertible cipher and a valid key, decrypting an encryption gives the padded data, not the data. Stripping the padding then gives the data. |
| Emst.SerializeNode | emst.go:41-51 | The buffer-writing loop produces `Serialized(n)`: the key, then per item the subject, predicate and object hashes and the data. |
| Emst.SerializedLength | emst.go:41-51 | The serialisation is the key followed by 96 bytes plus the data per item. |
| Emst.ItemsBytesLength | emst.go:44-49 | The items' part is 96 bytes plus the data length per item. |
| Emst.ParseSerialized | emst.go:41-51 | Given the key length and the data lengths, the serialisation parses back to the node's key and items, so serialisation loses nothing. |
| Emst.ParseItemsBytes | emst.go:44-49 | The items' bytes parse back to the items, given their data lengths. |
| Emst.ParseItemsStep | emst.go:45-48 | Parsing one more item's bytes appends that item. |
| Emst.EncryptTrieNodes | emst.go:53-82 | For any permutation, the export loop succeeds with `Exported(n, prfKey(seed), permute)`: position 0 is the root's record, position `i + 1` is child `i`'s, and an out-of-range position emits nothing. |
| Emst.PermutationInRange | emst.go:57 | A permutation of `0 .. count - 1` has `count` entries, each below `count`. |
| Emst.ExportedRecords | emst.go:60-79 | For in-range positions, the export has one record per position. Record `i` is the encrypted serialisation and digest of the node at position `perm[i]`. |
| Emst.ExportedDigests | emst.go:60-79 | The records' digests, in order, are those of the nodes at the permuted positions. |
| Emst.MemberDigestsMultiset | emst.go:57-79 | Reordering the positions reorders the digests and does not change their multiset. |
| Emst.ExportedDigestsMultiset | emst.go:53-82 | On a permutation, the multiset of record digests is the root's digest plus the children's, whatever the order. |
| Emst.ExportContents | emst.go:53-82 | On a permutation of `0 .. len(children)`, the export has `len(children) + 1` records. Its digest multiset is that of the root and children, and record `i` encrypts the node at position `perm[i]`. |
| Emst.FirstRecordDecrypts | emst_test.go:43-57 | The first record of such an export decrypts, under the same seed's key, to non-empty bytes. With an invertible cipher, those bytes are the padded serialisation of the node at `perm[0]`. |
| Emst.EncryptedScenario | emst_test.go:43-57 | After the two test inserts, exporting with any permutation gives a non-empty list, and its first record decrypts to non-empty bytes. |

Each method row above also stands for the specification function its `ensures` names. The lemmas in the table state the properties of these functions:

- `HashTrie.Rehashed` (trie.go:44-66) is what `updateHash` computes. Each child is recomputed, `childHash` is rebuilt from the new child digests, and the node's digest is SHA-256 of the child digests, then the key, then each item's three hashes.
- `HashTrie.Inserted` (trie.go:110-148) is what `insertHash` and `nodeInsert` do to a node:
  - With a child keyed by `word`, the item is appended to the first such child, and only that child is recomputed.
  - Otherwise a recomputed leaf holding `[item]` is appended, and the whole node is recomputed.
- `HashTrie.TripleInserted` (trie.go:102-108) is the three inserts under the subject, predicate and object hashes, followed by recomputing the root.
- `HashTrie.NodeQuery` (trie.go:159-169) returns the node's own items if its key is the query, else the items of its first child keyed by the query, else nothing.
- `HashTrie.TripleQuery` (trie.go:150-157) is `NodeQuery` on the first root child whose non-empty key starts with the query's first byte, or nothing. Its `requires |hash| > 0` is the only precondition; it is listed under "Left out".
- `VoSparql.Answer` (vo_sparql.go:24-71) is the outcome of `simulateSPARQLQuery`. It requires only that every node holds one stored digest per child, which every trie reachable through `newTrie` and `tripleInsert` satisfies.
- `VoSparql.ExtendedAnswer` (vo_sparql.go:136-145) is that outcome passed through `Filtered`.
- `Emst.EncryptResult` (emst.go:24-34) is a key-size error, or the CBC encryption of `pad(data, 16)` with IV `key[:16]`.
- `Emst.DecryptResult` (emst.go:84-96) is a key-size error, then a block-size error, then the CBC decryption with the padding kept.
- `Emst.Serialized` (emst.go:41-51) is the key followed, per item, by the subject, predicate and object hashes and the data.
- `Emst.Exported` (emst.go:53-82) is, for each position of the permutation in turn, the record of the root (position 0) or of child `idx - 1`. An out-of-range position emits nothing.

## Left out

- LevelDB writes in `updateHash` (trie.go:67-70) and the `DB` field are left out. They are persistence I/O whose errors are ignored, and nothing reads them back.
- The `parent`, `isLeaf` and `isExtend` fields are left out. They are written but never read.
- The `queue` in `encryptTrieNodes` is left out. It is built but never read.
- `rand.Seed(time.Now())` and `rand.Perm` are wall-clock randomness. The permutation is a parameter of `Emst.EncryptTrieNodes`, which accepts any sequence. The lemmas about the export's contents require a permutation.
- `fmt.Sprintf` trace text is modelled as `LogEntry` values carrying the same data. The exact wording is not modelled.
- `debugQueryResult` is console output and is not modelled.
- The internals of SHA-256, AES and Go's CBC mode are library code. The hash and the block cipher are uninterpreted constants. CBC chaining is written out over the abstract cipher, and decryption undoing encryption is the hypothesis `Invertible()`.
- Go slice aliasing is not modelled. The `append(path, …)` calls in `generateProof`, and the `append` in `pad` that may write into the caller's backing array, are modelled as building fresh sequences.
- Pointers to shared node objects are not modelled. Nodes are values owned by their parent.
- Go `string` payloads and terms are byte sequences. `Share.owner` is a Dafny `string`.
- Digests and component hashes are exactly 32 bytes, which is what every hash in the source is.
- A nil `*node` receiver is not modelled; nodes always exist.
- `aes.NewCipher` returning an error is modelled as a key-size check on 16, 24 or 32 bytes. Go's CBC mode panicking on ragged input is ruled out by the block-size check before it.
- HashTrie.TripleQuery: requires a non-empty hash. The source reads `hash[0]` and panics on an empty hash as soon as some bucket has a non-empty key. With no such bucket, it would return nil.
- HashTrie.Trie.Query: requires a non-empty hash, for the same reason.
- Where the written behaviour and the intent of the code differ, the code is followed:
  - `tripleQuery` selects a bucket by the first byte only (`HashTrie.TripleQueryMissesShadowedBucket` shows the lost answer).
  - `decryptNode` leaves the padding in place (`Emst.DecryptEncrypt` proves the padded form).
- The IV is the key's first 16 bytes, as the source does. It is not random.
- The error returns inside `encryptTrieNodes` (emst.go:63-65, 73-75) cannot be taken, because `prfKey` always yields a 16-byte key. `Emst.EncryptTrieNodes` therefore always succeeds.
- The trie scenario and the two query scenarios take the digests of the test's terms as distinct in their first byte. That is what the source's lookup needs to answer correctly. The data strings are parameters.
