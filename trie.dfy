/**
 * The hash-bucket index of trie.go.
 *
 * Despite its name the structure is one level deep: a root whose direct
 * children are buckets, each keyed by a component hash and holding every
 * triple that has that hash as subject, predicate or object.  Every node
 * stores a digest of its subtree and a copy of its children's digests.
 *
 * A node is exclusively owned by its parent, so nodes are modelled as
 * immutable values; the `Trie` class owns the root and the published root
 * digest and is the object whose fields the insert operations overwrite.
 */
module HashTrie {
  import opened Primitives

  datatype Triple = Triple(subjectHash: Digest, predictHash: Digest, objectHash: Digest)

  /** A triple with its optional payload (the human-readable statement). */
  datatype TripleItem = TripleItem(triple: Triple, data: Bytes)

  /**
   * `child` and `childHash` are parallel; `childHash` and `hash` are stored
   * copies that `UpdateHash` refreshes.
   */
  datatype Node = Node(key: Bytes, child: seq<Node>, childHash: seq<Digest>, value: seq<TripleItem>, hash: Digest)

  /** The root of a new trie: no key, no children, an all-zero digest. */
  const EmptyRoot: Node := Node([], [], [], [], ZeroDigest)

  /** The node `insertHash` creates for a hash it has not seen, before its digest is computed. */
  function Leaf(word: Bytes, item: TripleItem): Node
  {
    Node(word, [], [], [item], ZeroDigest)
  }

  function Hashes(nodes: seq<Node>): (hs: seq<Digest>)
  {
    seq(|nodes|, i requires 0 <= i < |nodes| => nodes[i].hash)
  }

  function Keys(nodes: seq<Node>): seq<Bytes>
  {
    seq(|nodes|, i requires 0 <= i < |nodes| => nodes[i].key)
  }

  // ---------------------------------------------------------------------------
  // Digests

  /** The three component hashes of each item, in item order. */
  function ItemHashes(items: seq<TripleItem>): Bytes
  {
    if |items| == 0 then []
    else
      var t := items[|items| - 1].triple;
      ItemHashes(items[..|items| - 1]) + t.subjectHash + t.predictHash + t.objectHash
  }

  /** What `updateHash` feeds to SHA-256: child digests first, then the key, then the items' hashes. */
  function HashInput(childHash: seq<Digest>, key: Bytes, value: seq<TripleItem>): Bytes
  {
    Flatten(childHash) + key + ItemHashes(value)
  }

  /** The node with every stored digest in its subtree recomputed, bottom-up. */
  function Rehashed(n: Node): Node
    decreases n
  {
    var cs := seq(|n.child|, i requires 0 <= i < |n.child| => Rehashed(n.child[i]));
    var hs := Hashes(cs);
    Node(n.key, cs, hs, n.value, Sha256(HashInput(hs, n.key, n.value)))
  }

  /** `childHash` mirrors the children's digests, entry for entry. */
  ghost predicate Synced(n: Node)
  {
    |n.childHash| == |n.child| && forall i :: 0 <= i < |n.child| ==> n.childHash[i] == n.child[i].hash
  }

  /** Every stored digest in the subtree is up to date. */
  ghost predicate Fresh(n: Node)
    decreases n
  {
    n.childHash == Hashes(n.child) &&
    (forall i :: 0 <= i < |n.child| ==> Fresh(n.child[i])) &&
    n.hash == Sha256(HashInput(n.childHash, n.key, n.value))
  }

  /** The same keys, items and shape, whatever the stored digests. */
  ghost predicate SameContent(a: Node, b: Node)
    decreases a
  {
    a.key == b.key && a.value == b.value && |a.child| == |b.child| &&
    forall i :: 0 <= i < |a.child| ==> SameContent(a.child[i], b.child[i])
  }

  /** Every node has one stored digest per child (the DFS of `generateProof` indexes `childHash` by child). */
  ghost predicate Aligned(n: Node)
    decreases n
  {
    |n.childHash| == |n.child| && forall i :: 0 <= i < |n.child| ==> Aligned(n.child[i])
  }

  lemma {:induction false} FreshIsAligned(n: Node)
    requires Fresh(n)
    ensures Aligned(n)
    decreases n
  {
    forall i | 0 <= i < |n.child| {
      FreshIsAligned(n.child[i]);
    }
  }

  /** Recomputation leaves every digest of the subtree up to date. */
  lemma {:induction false} RehashedIsFresh(n: Node)
    ensures Fresh(Rehashed(n))
    decreases n
  {
    var r := Rehashed(n);
    forall i | 0 <= i < |n.child|
      ensures Fresh(r.child[i])
    {
      RehashedIsFresh(n.child[i]);
    }
  }

  /** Recomputation changes no key, item or shape. */
  lemma {:induction false} RehashedKeepsContent(n: Node)
    ensures SameContent(Rehashed(n), n)
    decreases n
  {
    forall i | 0 <= i < |n.child|
      ensures SameContent(Rehashed(n).child[i], n.child[i])
    {
      RehashedKeepsContent(n.child[i]);
    }
  }

  /** Recomputing a node whose digests are up to date gives the node back (idempotence). */
  lemma {:induction false} FreshIsFixpoint(n: Node)
    requires Fresh(n)
    ensures Rehashed(n) == n
    decreases n
  {
    var r := Rehashed(n);
    forall i | 0 <= i < |n.child|
      ensures r.child[i] == n.child[i]
    {
      FreshIsFixpoint(n.child[i]);
    }
    assert r.child == n.child;
  }

  /** The digests depend on the content of the subtree only: the hash is deterministic. */
  lemma {:induction false} RehashedDependsOnContent(a: Node, b: Node)
    requires SameContent(a, b)
    ensures Rehashed(a) == Rehashed(b)
    decreases a
  {
    var ra, rb := Rehashed(a), Rehashed(b);
    forall i | 0 <= i < |a.child|
      ensures ra.child[i] == rb.child[i]
    {
      RehashedDependsOnContent(a.child[i], b.child[i]);
    }
    assert ra.child == rb.child;
  }

  /** Two up-to-date nodes with the same content are equal, digests included. */
  lemma FreshUnique(a: Node, b: Node)
    requires Fresh(a) && Fresh(b) && SameContent(a, b)
    ensures a == b
  {
    FreshIsFixpoint(a);
    FreshIsFixpoint(b);
    RehashedDependsOnContent(a, b);
  }

  /** `updateHash`: recompute the children's digests, rebuild `childHash`, then hash this node. */
  method UpdateHash(n: Node) returns (r: Node)
    ensures r == Rehashed(n)
    ensures Synced(r) && Fresh(r) && SameContent(r, n)
    decreases n
  {
    var written: Bytes := [];
    var childHash: seq<Digest> := [];
    var child: seq<Node> := [];
    RehashedShape(n);
    for i := 0 to |n.child|
      invariant child == Rehashed(n).child[..i]
      invariant childHash == Hashes(child)
      invariant written == Flatten(childHash)
    {
      var c := UpdateHash(n.child[i]);
      FlattenSnoc(childHash, c.hash);
      HashesSnoc(child, c);
      written := written + c.hash;
      childHash := childHash + [c.hash];
      child := child + [c];
    }
    written := written + n.key;
    ghost var header := written;
    for i := 0 to |n.value|
      invariant written == header + ItemHashes(n.value[..i])
    {
      var t := n.value[i].triple;
      ItemHashesSnoc(n.value, i);
      AppendAssoc(header, ItemHashes(n.value[..i]), t.subjectHash + t.predictHash + t.objectHash);
      written := written + (t.subjectHash + t.predictHash + t.objectHash);
    }
    assert n.value[..|n.value|] == n.value;
    assert child == Rehashed(n).child;
    r := n.(child := child, childHash := childHash, hash := Sha256(written));
    RehashedFrom(n, child);
  }

  lemma HashesSnoc(nodes: seq<Node>, last: Node)
    ensures Hashes(nodes + [last]) == Hashes(nodes) + [last.hash]
  {
  }

  lemma ItemHashesSnoc(items: seq<TripleItem>, i: nat)
    requires i < |items|
    ensures var t := items[i].triple;
      ItemHashes(items[..i + 1]) == ItemHashes(items[..i]) + (t.subjectHash + t.predictHash + t.objectHash)
  {
    assert items[..i + 1][..i] == items[..i];
  }

  /** `Rehashed` assembled from the children's recomputed digests, as `updateHash` builds it. */
  lemma RehashedFrom(n: Node, child: seq<Node>)
    requires |child| == |n.child| && forall k :: 0 <= k < |child| ==> child[k] == Rehashed(n.child[k])
    ensures var r := n.(child := child, childHash := Hashes(child), hash := Sha256(HashInput(Hashes(child), n.key, n.value)));
      r == Rehashed(n) && Synced(r) && Fresh(r) && SameContent(r, n)
  {
    assert child == Rehashed(n).child;
    RehashedIsFresh(n);
    RehashedKeepsContent(n);
  }

  // ---------------------------------------------------------------------------
  // Insertion

  /** The index of the first node at or after `from` keyed by `word`. */
  function FindKeyFrom(nodes: seq<Node>, word: Bytes, from: nat): (r: Option<nat>)
    requires from <= |nodes|
    ensures r.Some? ==> from <= r.value < |nodes| && nodes[r.value].key == word &&
                        forall k :: from <= k < r.value ==> nodes[k].key != word
    ensures r.None? ==> forall k :: from <= k < |nodes| ==> nodes[k].key != word
    decreases |nodes| - from
  {
    if from == |nodes| then None
    else if nodes[from].key == word then Some(from)
    else FindKeyFrom(nodes, word, from + 1)
  }

  /** The index of the first node keyed by `word`, the one the insert loop stops at. */
  function FindKey(nodes: seq<Node>, word: Bytes): (r: Option<nat>)
    ensures r.Some? ==> r.value < |nodes| && nodes[r.value].key == word &&
                        forall k :: 0 <= k < r.value ==> nodes[k].key != word
    ensures r.None? ==> forall k :: 0 <= k < |nodes| ==> nodes[k].key != word
  {
    FindKeyFrom(nodes, word, 0)
  }

  function Appended(n: Node, item: TripleItem): Node
  {
    n.(value := n.value + [item])
  }

  /**
   * The node after `nodeInsert(word, item)`: the item goes at the end of the
   * first child keyed by `word`, whose digests are recomputed while this
   * node's own digests are left as they were; if no child has that key, a
   * new leaf is appended and the whole node is recomputed.
   */
  function Inserted(n: Node, word: Bytes, item: TripleItem): Node
  {
    match FindKey(n.child, word)
    case Some(j) => n.(child := n.child[j := Rehashed(Appended(n.child[j], item))])
    case None => Rehashed(n.(child := n.child + [Rehashed(Leaf(word, item))]))
  }

  /** `nodeInsert`: find-or-create the child keyed by `word`, then append. */
  method NodeInsert(n: Node, word: Bytes, item: TripleItem) returns (r: Node)
    ensures r == Inserted(n, word, item)
  {
    var i := 0;
    while i < |n.child|
      invariant i <= |n.child|
      invariant forall k :: 0 <= k < i ==> n.child[k].key != word
    {
      var ch := n.child[i];
      if ch.key == word {
        var updated := UpdateHash(Appended(ch, item));
        r := n.(child := n.child[i := updated]);
        return;
      }
      i := i + 1;
    }
    var newNode := UpdateHash(Leaf(word, item));
    r := UpdateHash(n.(child := n.child + [newNode]));
  }

  /** Keys of the children are pairwise distinct: a hash has at most one bucket. */
  ghost predicate DistinctKeys(n: Node)
  {
    forall i, j :: 0 <= i < j < |n.child| ==> n.child[i].key != n.child[j].key
  }

  /** Every child is a bucket: it has no children of its own. */
  ghost predicate OneLevel(n: Node)
  {
    forall i :: 0 <= i < |n.child| ==> |n.child[i].child| == 0
  }

  /** Every child of the node has up-to-date digests. */
  ghost predicate ChildrenFresh(n: Node)
  {
    forall i :: 0 <= i < |n.child| ==> Fresh(n.child[i])
  }

  lemma RehashedShape(n: Node)
    ensures |Rehashed(n).child| == |n.child|
    ensures forall i :: 0 <= i < |n.child| ==> Rehashed(n).child[i] == Rehashed(n.child[i])
    ensures Rehashed(n).key == n.key && Rehashed(n).value == n.value
  {
  }

  /**
   * Inserting under a key some child already has: the item is appended at the
   * end of the first such child, no child is added, every other child and
   * this node's own key, items and stored digests are untouched.
   */
  lemma InsertExisting(n: Node, word: Bytes, item: TripleItem, j: nat)
    requires j < |n.child| && n.child[j].key == word
    requires forall k :: 0 <= k < j ==> n.child[k].key != word
    ensures var r := Inserted(n, word, item);
      |r.child| == |n.child| &&
      r.child[j].key == word && r.child[j].value == n.child[j].value + [item] &&
      r.child[j].child == Rehashed(n.child[j]).child && Fresh(r.child[j]) &&
      (forall k :: 0 <= k < |n.child| && k != j ==> r.child[k] == n.child[k]) &&
      r.key == n.key && r.value == n.value && r.childHash == n.childHash && r.hash == n.hash
  {
    assert FindKey(n.child, word) == Some(j);
    RehashedIsFresh(Appended(n.child[j], item));
  }

  /**
   * Inserting under a key no child has: exactly one child is appended, keyed
   * by `word` and holding just the item; the earlier children of an
   * up-to-date node stay as they were, and the node's digests are recomputed.
   */
  lemma InsertNew(n: Node, word: Bytes, item: TripleItem)
    requires forall k :: 0 <= k < |n.child| ==> n.child[k].key != word
    ensures var r := Inserted(n, word, item);
      |r.child| == |n.child| + 1 &&
      r.child[|n.child|].key == word && r.child[|n.child|].value == [item] &&
      r.child[|n.child|].child == [] &&
      (ChildrenFresh(n) ==> forall k :: 0 <= k < |n.child| ==> r.child[k] == n.child[k]) &&
      r.key == n.key && r.value == n.value && Fresh(r)
  {
    assert FindKey(n.child, word) == None;
    var grown := n.(child := n.child + [Rehashed(Leaf(word, item))]);
    RehashedShape(grown);
    RehashedIsFresh(grown);
    if ChildrenFresh(n) {
      forall k | 0 <= k < |n.child|
        ensures Rehashed(grown).child[k] == n.child[k]
      {
        FreshIsFixpoint(n.child[k]);
      }
    }
  }

  /** The keys after an insert: unchanged, or extended by `word` when it was missing. */
  lemma {:induction false} InsertedKeys(n: Node, word: Bytes, item: TripleItem)
    ensures Keys(Inserted(n, word, item).child) ==
            if word in Keys(n.child) then Keys(n.child) else Keys(n.child) + [word]
  {
    var r := Inserted(n, word, item);
    match FindKey(n.child, word)
    case Some(j) =>
      assert Keys(n.child)[j] == word;
      assert Keys(r.child) == Keys(n.child);
    case None =>
      RehashedShape(n.(child := n.child + [Rehashed(Leaf(word, item))]));
      assert word !in Keys(n.child);
      assert Keys(r.child) == Keys(n.child) + [word];
  }

  /** A hash never gets a second bucket. */
  lemma InsertKeepsDistinctKeys(n: Node, word: Bytes, item: TripleItem)
    requires DistinctKeys(n)
    ensures DistinctKeys(Inserted(n, word, item))
  {
    var r := Inserted(n, word, item);
    InsertedKeys(n, word, item);
    forall i, j | 0 <= i < j < |r.child|
      ensures r.child[i].key != r.child[j].key
    {
      assert Keys(r.child)[i] != Keys(r.child)[j];
    }
  }

  /** Inserts keep the root a single level of up-to-date buckets with aligned digests. */
  lemma InsertKeepsShape(n: Node, word: Bytes, item: TripleItem)
    requires OneLevel(n) && ChildrenFresh(n) && Aligned(n)
    ensures var r := Inserted(n, word, item);
      OneLevel(r) && ChildrenFresh(r) && Aligned(r) && r.key == n.key
  {
    var r := Inserted(n, word, item);
    match FindKey(n.child, word)
    case Some(j) =>
      InsertExisting(n, word, item, j);
      RehashedShape(Appended(n.child[j], item));
      forall i | 0 <= i < |r.child|
        ensures Aligned(r.child[i])
      {
        FreshIsAligned(r.child[i]);
      }
    case None =>
      InsertNew(n, word, item);
      FreshIsAligned(r);
  }

  /** `tripleInsert`: file the item under its subject, predicate and object hashes, then rehash the root. */
  function TripleInserted(root: Node, item: TripleItem): Node
  {
    var t := item.triple;
    Rehashed(Inserted(Inserted(Inserted(root, t.subjectHash, item), t.predictHash, item), t.objectHash, item))
  }

  /** An insert adds at most one bucket, keyed by `word`. */
  lemma InsertedGrowth(n: Node, word: Bytes, item: TripleItem)
    ensures var r := Inserted(n, word, item);
      |n.child| <= |r.child| <= |n.child| + 1 &&
      forall k :: k in Keys(r.child) ==> k in Keys(n.child) || k == word
  {
    InsertedKeys(n, word, item);
  }

  lemma RehashedKeys(n: Node)
    ensures Keys(Rehashed(n).child) == Keys(n.child)
  {
    RehashedShape(n);
  }

  /** One insert adds at most three buckets, keyed by the item's hashes, and leaves the root up to date. */
  lemma TripleInsertShape(root: Node, item: TripleItem)
    ensures var r := TripleInserted(root, item);
      |root.child| <= |r.child| <= |root.child| + 3 && r.key == root.key && Fresh(r) &&
      forall k :: k in Keys(r.child) ==>
        k in Keys(root.child) || k == item.triple.subjectHash || k == item.triple.predictHash || k == item.triple.objectHash
  {
    var t := item.triple;
    var a := Inserted(root, t.subjectHash, item);
    var b := Inserted(a, t.predictHash, item);
    var c := Inserted(b, t.objectHash, item);
    InsertedGrowth(root, t.subjectHash, item);
    InsertedGrowth(a, t.predictHash, item);
    InsertedGrowth(b, t.objectHash, item);
    RehashedKeys(c);
    RehashedShape(c);
    RehashedIsFresh(c);
    InsertedKeys(root, t.subjectHash, item);
    InsertedKeys(a, t.predictHash, item);
    InsertedKeys(b, t.objectHash, item);
  }

  // ---------------------------------------------------------------------------
  // Lookup

  /** Exact-match lookup: the items of the first child keyed by `hash`, or none. */
  function Lookup(root: Node, hash: Bytes): seq<TripleItem>
  {
    match FindKey(root.child, hash)
    case Some(j) => root.child[j].value
    case None => []
  }

  /** The items an insert adds to a bucket are appended to it; every other bucket keeps its items. */
  lemma LookupInserted(n: Node, word: Bytes, item: TripleItem, hash: Bytes)
    ensures Lookup(Inserted(n, word, item), hash) == Lookup(n, hash) + (if hash == word then [item] else [])
  {
    if word in Keys(n.child) {
      LookupInsertedExisting(n, word, item, hash);
    } else {
      LookupInsertedNew(n, word, item, hash);
    }
  }

  lemma LookupInsertedExisting(n: Node, word: Bytes, item: TripleItem, hash: Bytes)
    requires word in Keys(n.child)
    ensures Lookup(Inserted(n, word, item), hash) == Lookup(n, hash) + (if hash == word then [item] else [])
  {
    var r := Inserted(n, word, item);
    InsertedKeys(n, word, item);
    SameKeysSameFind(r.child, n.child, hash);
  }

  lemma LookupInsertedNew(n: Node, word: Bytes, item: TripleItem, hash: Bytes)
    requires word !in Keys(n.child)
    ensures Lookup(Inserted(n, word, item), hash) == Lookup(n, hash) + (if hash == word then [item] else [])
  {
    var r := Inserted(n, word, item);
    NewBucket(n, word, item);
    FindKeyExtended(n.child, r.child, hash);
  }

  /** Inserting a missing key keeps every bucket's key and items and adds one bucket `word: [item]` at the end. */
  lemma NewBucket(n: Node, word: Bytes, item: TripleItem)
    requires word !in Keys(n.child)
    ensures var r := Inserted(n, word, item);
      |r.child| == |n.child| + 1 &&
      (forall k :: 0 <= k < |n.child| ==> r.child[k].key == n.child[k].key && r.child[k].value == n.child[k].value) &&
      r.child[|n.child|].key == word && r.child[|n.child|].value == [item]
  {
    assert forall k :: 0 <= k < |n.child| ==> Keys(n.child)[k] == n.child[k].key;
    var grown := n.(child := n.child + [Rehashed(Leaf(word, item))]);
    RehashedShape(grown);
    RehashedShape(Leaf(word, item));
    RehashedShape(Rehashed(Leaf(word, item)));
    forall k | 0 <= k < |n.child|
      ensures Rehashed(grown).child[k].key == n.child[k].key && Rehashed(grown).child[k].value == n.child[k].value
    {
      RehashedShape(n.child[k]);
    }
  }

  /** Appending one node to a sequence extends the first-match search by one position. */
  lemma FindKeyExtended(a: seq<Node>, b: seq<Node>, word: Bytes)
    requires |b| == |a| + 1
    requires forall k :: 0 <= k < |a| ==> b[k].key == a[k].key && b[k].value == a[k].value
    ensures (match FindKey(b, word) case Some(j) => b[j].value case None => []) ==
            (match FindKey(a, word) case Some(j) => a[j].value case None => []) +
            (if b[|a|].key == word && FindKey(a, word).None? then b[|a|].value else [])
  {
    FindKeyFromExtended(a, b, word, 0);
  }

  lemma {:induction false} FindKeyFromExtended(a: seq<Node>, b: seq<Node>, word: Bytes, from: nat)
    requires |b| == |a| + 1 && from <= |a|
    requires forall k :: 0 <= k < |a| ==> b[k].key == a[k].key && b[k].value == a[k].value
    ensures (match FindKeyFrom(b, word, from) case Some(j) => b[j].value case None => []) ==
            (match FindKeyFrom(a, word, from) case Some(j) => a[j].value case None => []) +
            (if b[|a|].key == word && FindKeyFrom(a, word, from).None? then b[|a|].value else [])
    decreases |a| - from
  {
    if from < |a| && a[from].key != word {
      FindKeyFromExtended(a, b, word, from + 1);
    }
  }

  /** The item once for each of its three hashes equal to `hash`. */
  function Hits(item: TripleItem, hash: Bytes): seq<TripleItem>
  {
    (if hash == item.triple.subjectHash then [item] else []) +
    (if hash == item.triple.predictHash then [item] else []) +
    (if hash == item.triple.objectHash then [item] else [])
  }

  lemma LookupRehashed(n: Node, hash: Bytes)
    ensures Lookup(Rehashed(n), hash) == Lookup(n, hash)
  {
    RehashedKeys(n);
    SameKeysSameFind(Rehashed(n).child, n.child, hash);
    RehashedShape(n);
    match FindKey(n.child, hash)
    case Some(j) =>
      RehashedShape(n.child[j]);
    case None =>
  }

  /** Two node sequences with the same keys have their first `word` at the same place. */
  lemma SameKeysSameFind(a: seq<Node>, b: seq<Node>, word: Bytes)
    requires Keys(a) == Keys(b)
    ensures FindKey(a, word) == FindKey(b, word)
  {
    assert forall k :: 0 <= k < |a| ==> a[k].key == Keys(a)[k] == Keys(b)[k] == b[k].key;
  }

  /**
   * After `tripleInsert(item)`, each bucket holds what it held before, then
   * the item once for every one of its three hashes equal to the bucket's
   * key: an inserted item is found under each of its hashes, and a hash
   * never inserted has no items.
   */
  lemma TripleInsertLookup(root: Node, item: TripleItem, hash: Bytes)
    ensures Lookup(TripleInserted(root, item), hash) == Lookup(root, hash) + Hits(item, hash)
  {
    var t := item.triple;
    var a := Inserted(root, t.subjectHash, item);
    var b := Inserted(a, t.predictHash, item);
    var c := Inserted(b, t.objectHash, item);
    LookupInserted(root, t.subjectHash, item, hash);
    LookupInserted(a, t.predictHash, item, hash);
    LookupInserted(b, t.objectHash, item, hash);
    LookupRehashed(c, hash);
    LookupChain(root, a, b, c, Rehashed(c), item, hash);
  }

  /** Three appends in a row add the item once per matching hash. */
  lemma LookupChain(root: Node, a: Node, b: Node, c: Node, d: Node, item: TripleItem, hash: Bytes)
    requires Lookup(a, hash) == Lookup(root, hash) + (if hash == item.triple.subjectHash then [item] else [])
    requires Lookup(b, hash) == Lookup(a, hash) + (if hash == item.triple.predictHash then [item] else [])
    requires Lookup(c, hash) == Lookup(b, hash) + (if hash == item.triple.objectHash then [item] else [])
    requires Lookup(d, hash) == Lookup(c, hash)
    ensures Lookup(d, hash) == Lookup(root, hash) + Hits(item, hash)
  {
  }

  /** The index of the first node at or after `from` whose key starts with byte `b`. */
  function FindLeadingByteFrom(nodes: seq<Node>, b: byte, from: nat): (r: Option<nat>)
    requires from <= |nodes|
    ensures r.Some? ==> from <= r.value < |nodes| && |nodes[r.value].key| > 0 && nodes[r.value].key[0] == b &&
                        forall k :: from <= k < r.value ==> !(|nodes[k].key| > 0 && nodes[k].key[0] == b)
    ensures r.None? ==> forall k :: from <= k < |nodes| ==> !(|nodes[k].key| > 0 && nodes[k].key[0] == b)
    decreases |nodes| - from
  {
    if from == |nodes| then None
    else if |nodes[from].key| > 0 && nodes[from].key[0] == b then Some(from)
    else FindLeadingByteFrom(nodes, b, from + 1)
  }

  /** The index of the first node whose key starts with byte `b`. */
  function FindLeadingByte(nodes: seq<Node>, b: byte): (r: Option<nat>)
    ensures r.Some? ==> r.value < |nodes| && |nodes[r.value].key| > 0 && nodes[r.value].key[0] == b &&
                        forall k :: 0 <= k < r.value ==> !(|nodes[k].key| > 0 && nodes[k].key[0] == b)
    ensures r.None? ==> forall k :: 0 <= k < |nodes| ==> !(|nodes[k].key| > 0 && nodes[k].key[0] == b)
  {
    FindLeadingByteFrom(nodes, b, 0)
  }

  /** `nodeQuery`: this node's items if it is keyed by `hash`, else those of its first child keyed by it. */
  function NodeQuery(n: Node, hash: Bytes): seq<TripleItem>
  {
    if n.key == hash then n.value
    else match FindKey(n.child, hash)
      case Some(j) => n.child[j].value
      case None => []
  }

  /** `nodeQuery` as the loop it is: the node's own key first, then the children in order. */
  method QueryBucket(n: Node, hash: Bytes) returns (items: seq<TripleItem>)
    ensures items == NodeQuery(n, hash)
  {
    if n.key == hash {
      return n.value;
    }
    var i := 0;
    while i < |n.child|
      invariant 0 <= i <= |n.child|
      invariant forall k :: 0 <= k < i ==> n.child[k].key != hash
    {
      if n.child[i].key == hash {
        return n.child[i].value;
      }
      i := i + 1;
    }
    return [];
  }

  /**
   * `tripleQuery`: descend into the first root child whose key starts with the
   * query's first byte and ask it; the query's first byte is read
   * unconditionally, so the hash must not be empty.
   */
  function TripleQuery(root: Node, hash: Bytes): seq<TripleItem>
    requires |hash| > 0
  {
    match FindLeadingByte(root.child, hash[0])
    case Some(j) => NodeQuery(root.child[j], hash)
    case None => []
  }

  /** Among the root's children, a key's first byte determines the key. */
  ghost predicate LeadingByteDeterminesKey(root: Node)
  {
    forall i, j ::
      (0 <= i < |root.child| && 0 <= j < |root.child| &&
       |root.child[i].key| > 0 && |root.child[j].key| > 0 && root.child[i].key[0] == root.child[j].key[0]) ==>
      root.child[i].key == root.child[j].key
  }

  /** When no two buckets share a first byte, the first-byte descent agrees with exact lookup. */
  lemma TripleQueryIsLookup(root: Node, hash: Bytes)
    requires |hash| > 0 && OneLevel(root) && LeadingByteDeterminesKey(root)
    ensures TripleQuery(root, hash) == Lookup(root, hash)
  {
    match FindLeadingByte(root.child, hash[0])
    case Some(j) =>
      if root.child[j].key == hash {
        assert FindKey(root.child, hash) == Some(j);
      } else {
        assert FindKey(root.child, hash) == None;
      }
    case None =>
      assert FindKey(root.child, hash) == None;
  }

  /**
   * The first-byte descent can miss a bucket: when an earlier bucket's key
   * shares the first byte of a later bucket's key, querying the later key
   * yields no items although exact lookup finds them.
   */
  lemma TripleQueryMissesShadowedBucket(root: Node, j: nat, k: nat)
    requires OneLevel(root) && DistinctKeys(root)
    requires j < k < |root.child| && |root.child[j].key| > 0 && |root.child[k].key| > 0
    requires root.child[j].key[0] == root.child[k].key[0]
    requires forall i :: 0 <= i < j ==> !(|root.child[i].key| > 0 && root.child[i].key[0] == root.child[j].key[0])
    ensures TripleQuery(root, root.child[k].key) == []
    ensures Lookup(root, root.child[k].key) == root.child[k].value
  {
    var h := root.child[k].key;
    assert FindLeadingByte(root.child, h[0]) == Some(j);
    assert FindKey(root.child, h) == Some(k);
  }

  // ---------------------------------------------------------------------------
  // Membership proofs

  /** Some node strictly below `n` is keyed by `target`. */
  ghost predicate HasDescendant(n: Node, target: Bytes)
    decreases n
  {
    exists i :: 0 <= i < |n.child| && (n.child[i].key == target || HasDescendant(n.child[i], target))
  }

  /**
   * The DFS of `generateProof` from `n`: the path of stored child digests
   * down to the first node (in child-array order) keyed by `target`, ending
   * with that node's own digest.
   */
  function Dfs(n: Node, target: Bytes): (r: Option<seq<Digest>>)
    requires Aligned(n)
    ensures r.Some? <==> HasDescendant(n, target)
    ensures r.Some? ==> |r.value| > 0
    decreases n, 1
  {
    DfsFrom(n, target, 0)
  }

  /** The DFS loop over the children of `n` from index `i` on. */
  function DfsFrom(n: Node, target: Bytes, i: nat): (r: Option<seq<Digest>>)
    requires Aligned(n) && i <= |n.child|
    ensures r.Some? <==>
      exists k :: i <= k < |n.child| && (n.child[k].key == target || HasDescendant(n.child[k], target))
    ensures r.Some? ==> |r.value| > 0
    decreases n, 0, |n.child| - i
  {
    if i == |n.child| then None
    else if n.child[i].key == target then Some([n.child[i].hash])
    else match Dfs(n.child[i], target)
      case Some(p) => Some([n.childHash[i]] + p)
      case None => DfsFrom(n, target, i + 1)
  }

  /** Whatever the query returns was found in a node below the root keyed by the query, so the proof for it is not empty. */
  lemma TripleQueryFound(root: Node, hash: Bytes)
    requires |hash| > 0 && Aligned(root)
    ensures TripleQuery(root, hash) != [] ==> HasDescendant(root, hash) && GenerateProof(root, hash) != []
  {
    match FindLeadingByte(root.child, hash[0])
    case Some(j) =>
      var b := root.child[j];
      if b.key != hash {
        match FindKey(b.child, hash)
        case Some(k) =>
          assert HasDescendant(b, hash);
        case None =>
      }
    case None =>
  }

  /** `generateProof`: the DFS path, or nothing when no node below is keyed by `target`. */
  function GenerateProof(n: Node, target: Bytes): (proof: seq<Digest>)
    requires Aligned(n)
    ensures proof == [] <==> !HasDescendant(n, target)
  {
    match Dfs(n, target)
    case Some(p) => p
    case None => []
  }

  lemma {:induction false} DfsFromOneLevel(n: Node, target: Bytes, i: nat)
    requires Aligned(n) && OneLevel(n) && i <= |n.child|
    ensures DfsFrom(n, target, i) ==
      match FindKeyFrom(n.child, target, i)
      case Some(j) => Some([n.child[j].hash])
      case None => None
    decreases |n.child| - i
  {
    if i < |n.child| && n.child[i].key != target {
      assert Dfs(n.child[i], target) == None;
      DfsFromOneLevel(n, target, i + 1);
    }
  }

  /** In a one-level trie the proof for a key is the digest of the first bucket with that key, or empty. */
  lemma ProofOneLevel(n: Node, target: Bytes)
    requires Aligned(n) && OneLevel(n)
    ensures GenerateProof(n, target) ==
      match FindKey(n.child, target)
      case Some(j) => [n.child[j].hash]
      case None => []
  {
    DfsFromOneLevel(n, target, 0);
  }

  // ---------------------------------------------------------------------------
  // The trie object

  class Trie {
    var root: Node
    var rootHash: Digest

    /** The root is an unkeyed node over a single level of distinct, up-to-date buckets. */
    ghost predicate Valid()
      reads this
    {
      root.key == [] && OneLevel(root) && ChildrenFresh(root) && Aligned(root) && DistinctKeys(root)
    }

    /** `newTrie`. */
    constructor ()
      ensures Valid() && root == EmptyRoot && rootHash == ZeroDigest
    {
      root := EmptyRoot;
      rootHash := ZeroDigest;
    }

    /** `insertHash`: `nodeInsert` on the root; the published root digest is not touched. */
    method InsertHash(word: Bytes, item: TripleItem)
      requires Valid()
      modifies this
      ensures Valid()
      ensures root == Inserted(old(root), word, item) && rootHash == old(rootHash)
    {
      InsertKeepsShape(root, word, item);
      InsertKeepsDistinctKeys(root, word, item);
      root := NodeInsert(root, word, item);
    }

    /** `tripleQuery` as the loop it is: the first root child whose key starts with the query's first byte answers. */
    method Query(hash: Bytes) returns (items: seq<TripleItem>)
      requires |hash| > 0
      ensures items == TripleQuery(root, hash)
    {
      var i := 0;
      while i < |root.child|
        invariant 0 <= i <= |root.child|
        invariant forall k :: 0 <= k < i ==> !(|root.child[k].key| > 0 && root.child[k].key[0] == hash[0])
      {
        if |root.child[i].key| > 0 && hash[0] == root.child[i].key[0] {
          items := QueryBucket(root.child[i], hash);
          return;
        }
        i := i + 1;
      }
      return [];
    }

    /** `tripleInsert`: three inserts, a full rehash of the root, then publish the root digest. */
    method TripleInsert(item: TripleItem)
      requires Valid()
      modifies this
      ensures Valid()
      ensures root == TripleInserted(old(root), item)
      ensures rootHash == root.hash && Fresh(root)
    {
      InsertHash(item.triple.subjectHash, item);
      InsertHash(item.triple.predictHash, item);
      InsertHash(item.triple.objectHash, item);
      ghost var before := root;
      root := UpdateHash(root);
      rootHash := root.hash;
      RehashedShape(before);
      forall i | 0 <= i < |root.child|
        ensures Fresh(root.child[i]) && Aligned(root.child[i])
      {
        RehashedIsFresh(before.child[i]);
        FreshIsAligned(root.child[i]);
      }
    }
  }

  // ---------------------------------------------------------------------------
  // The scenario of trie_test.go

  /** A one-level root whose bucket keys are all among `hs`. */
  ghost predicate KeysWithin(root: Node, hs: seq<Digest>)
  {
    OneLevel(root) && forall k :: k in Keys(root.child) ==> k in hs
  }

  /** The item's three hashes are all among `hs`. */
  ghost predicate HashesAmong(item: TripleItem, hs: seq<Digest>)
  {
    item.triple.subjectHash in hs && item.triple.predictHash in hs && item.triple.objectHash in hs
  }

  /** Every root child's key is one of the given hashes, which have pairwise distinct first bytes. */
  lemma KeysAmongDistinctLeads(root: Node, hs: seq<Digest>)
    requires DistinctLeadingBytes(hs) && KeysWithin(root, hs)
    ensures LeadingByteDeterminesKey(root)
  {
    forall i, j | 0 <= i < |root.child| && 0 <= j < |root.child| &&
      |root.child[i].key| > 0 && |root.child[j].key| > 0 && root.child[i].key[0] == root.child[j].key[0]
      ensures root.child[i].key == root.child[j].key
    {
      assert Keys(root.child)[i] == root.child[i].key && Keys(root.child)[j] == root.child[j].key;
      assert root.child[i].key in hs && root.child[j].key in hs;
      var a :| 0 <= a < |hs| && hs[a] == root.child[i].key;
      var b :| 0 <= b < |hs| && hs[b] == root.child[j].key;
      assert a == b;
    }
  }

  /**
   * One `tripleInsert` of an item whose hashes are among `hs`: the keys stay
   * among `hs`, the root stays one level deep, and each bucket gains the
   * item's hits.
   */
  lemma ScenarioStep(root: Node, item: TripleItem, hs: seq<Digest>, h: Digest)
    requires KeysWithin(root, hs) && HashesAmong(item, hs)
    ensures KeysWithin(TripleInserted(root, item), hs)
    ensures Lookup(TripleInserted(root, item), h) == Lookup(root, h) + Hits(item, h)
  {
    TripleInsertShape(root, item);
    TripleInsertOneLevel(root, item);
    TripleInsertLookup(root, item, h);
  }

  /** On such a trie the first-byte query finds exactly what the exact lookup finds. */
  lemma QueryFromLookup(root: Node, hs: seq<Digest>, h: Digest, items: seq<TripleItem>)
    requires KeysWithin(root, hs) && DistinctLeadingBytes(hs)
    requires Lookup(root, h) == items
    ensures TripleQuery(root, h) == items
  {
    KeysAmongDistinctLeads(root, hs);
    TripleQueryIsLookup(root, h);
  }

  /**
   * Three inserts into a trie without buckets, all hashes among `hs`, which
   * have distinct first bytes: the query by any `h` returns the items'
   * hits in insertion order.
   */
  lemma ScenarioQueries(root0: Node, t1: TripleItem, t2: TripleItem, t3: TripleItem, hs: seq<Digest>, h: Digest,
                        expected: seq<TripleItem>)
    requires |root0.child| == 0 && DistinctLeadingBytes(hs)
    requires HashesAmong(t1, hs) && HashesAmong(t2, hs) && HashesAmong(t3, hs)
    requires expected == Hits(t1, h) + Hits(t2, h) + Hits(t3, h)
    ensures TripleQuery(TripleInserted(TripleInserted(TripleInserted(root0, t1), t2), t3), h) == expected
  {
    var r2 := TripleInserted(TripleInserted(root0, t1), t2);
    ScenarioTwoInserts(root0, t1, t2, hs, h);
    ScenarioStep(r2, t3, hs, h);
    QueryFromLookup(TripleInserted(r2, t3), hs, h, expected);
  }

  /** Two inserts into a trie without buckets: the bucket of `h` holds the hits of both items, in order. */
  lemma ScenarioTwoInserts(root0: Node, t1: TripleItem, t2: TripleItem, hs: seq<Digest>, h: Digest)
    requires |root0.child| == 0
    requires HashesAmong(t1, hs) && HashesAmong(t2, hs)
    ensures KeysWithin(TripleInserted(TripleInserted(root0, t1), t2), hs)
    ensures Lookup(TripleInserted(TripleInserted(root0, t1), t2), h) == Hits(t1, h) + Hits(t2, h)
  {
    var r1 := TripleInserted(root0, t1);
    assert KeysWithin(root0, hs);
    assert Lookup(root0, h) == [];
    ScenarioStep(root0, t1, hs, h);
    assert Lookup(r1, h) == Hits(t1, h);
    ScenarioStep(r1, t2, hs, h);
  }

  /** One insert into a trie without buckets, all hashes among `hs`, which have distinct first bytes: the query by `h` returns the item's hits. */
  lemma ScenarioQuery(root0: Node, t1: TripleItem, hs: seq<Digest>, h: Digest, expected: seq<TripleItem>)
    requires |root0.child| == 0 && DistinctLeadingBytes(hs)
    requires HashesAmong(t1, hs)
    requires expected == Hits(t1, h)
    ensures TripleQuery(TripleInserted(root0, t1), h) == expected
  {
    assert KeysWithin(root0, hs);
    assert Lookup(root0, h) == [];
    ScenarioStep(root0, t1, hs, h);
    QueryFromLookup(TripleInserted(root0, t1), hs, h, expected);
  }

  /** Which of the scenario's triples mention which term. */
  lemma ScenarioHits(alice: Digest, knows: Digest, bob: Digest, likes: Digest, pizza: Digest, music: Digest,
                     t1: TripleItem, t2: TripleItem, t3: TripleItem)
    requires DistinctLeadingBytes([alice, knows, bob, likes, pizza, music])
    requires t1.triple == Triple(alice, knows, bob) && t2.triple == Triple(bob, likes, pizza) && t3.triple == Triple(alice, likes, music)
    ensures Hits(t1, alice) + Hits(t2, alice) + Hits(t3, alice) == [t1, t3]
    ensures Hits(t1, likes) + Hits(t2, likes) + Hits(t3, likes) == [t2, t3]
    ensures Hits(t1, pizza) + Hits(t2, pizza) + Hits(t3, pizza) == [t2]
    ensures var hs := [alice, knows, bob, likes, pizza, music];
      HashesAmong(t1, hs) && HashesAmong(t2, hs) && HashesAmong(t3, hs)
  {
    var hs := [alice, knows, bob, likes, pizza, music];
    assert alice != knows && alice != bob && alice != likes && alice != music by {
      assert hs[0][0] != hs[1][0] && hs[0][0] != hs[2][0] && hs[0][0] != hs[3][0] && hs[0][0] != hs[5][0];
    }
    assert likes != knows && likes != bob && likes != pizza && likes != music by {
      assert hs[3][0] != hs[1][0] && hs[3][0] != hs[2][0] && hs[3][0] != hs[4][0] && hs[3][0] != hs[5][0];
    }
    assert pizza != knows && pizza != bob && pizza != music by {
      assert hs[4][0] != hs[1][0] && hs[4][0] != hs[2][0] && hs[4][0] != hs[5][0];
    }
  }

  /**
   * Inserting "Alice knows Bob", "Bob likes Pizza" and "Alice likes Music"
   * into a trie without buckets: Alice's bucket then holds two items, likes'
   * two, Pizza's exactly "Bob likes Pizza" with its data.  The six digests
   * stand for the SHA-256 hashes of the six terms (the test relies on their
   * first bytes being distinct); `d1`, `d2`, `d3` are the items' data, the
   * bytes of the three sentences.
   */
  lemma TrieScenario(root0: Node, alice: Digest, knows: Digest, bob: Digest, likes: Digest, pizza: Digest, music: Digest,
                     d1: Bytes, d2: Bytes, d3: Bytes)
    requires |root0.child| == 0
    requires DistinctLeadingBytes([alice, knows, bob, likes, pizza, music])
    ensures
      var t1 := TripleItem(Triple(alice, knows, bob), d1);
      var t2 := TripleItem(Triple(bob, likes, pizza), d2);
      var t3 := TripleItem(Triple(alice, likes, music), d3);
      var root := TripleInserted(TripleInserted(TripleInserted(root0, t1), t2), t3);
      TripleQuery(root, alice) == [t1, t3] &&
      TripleQuery(root, likes) == [t2, t3] &&
      TripleQuery(root, pizza) == [t2] &&
      TripleQuery(root, pizza)[0].data == d2
  {
    var t1 := TripleItem(Triple(alice, knows, bob), d1);
    var t2 := TripleItem(Triple(bob, likes, pizza), d2);
    var t3 := TripleItem(Triple(alice, likes, music), d3);
    var hs := [alice, knows, bob, likes, pizza, music];
    ScenarioHits(alice, knows, bob, likes, pizza, music, t1, t2, t3);
    ScenarioQueries(root0, t1, t2, t3, hs, alice, [t1, t3]);
    ScenarioQueries(root0, t1, t2, t3, hs, likes, [t2, t3]);
    ScenarioQueries(root0, t1, t2, t3, hs, pizza, [t2]);
  }

  /** Inserts into a one-level root with leaf buckets keep it one level deep. */
  lemma TripleInsertOneLevel(root: Node, item: TripleItem)
    requires OneLevel(root)
    ensures OneLevel(TripleInserted(root, item))
  {
    var t := item.triple;
    var a := Inserted(root, t.subjectHash, item);
    var b := Inserted(a, t.predictHash, item);
    var c := Inserted(b, t.objectHash, item);
    InsertedOneLevel(root, t.subjectHash, item);
    InsertedOneLevel(a, t.predictHash, item);
    InsertedOneLevel(b, t.objectHash, item);
    RehashedShape(c);
    forall i | 0 <= i < |c.child| ensures |Rehashed(c).child[i].child| == 0 {
      RehashedShape(c.child[i]);
    }
  }

  lemma InsertedOneLevel(n: Node, word: Bytes, item: TripleItem)
    requires OneLevel(n)
    ensures OneLevel(Inserted(n, word, item))
  {
    match FindKey(n.child, word)
    case Some(j) =>
      RehashedShape(Appended(n.child[j], item));
    case None =>
      var grown := n.(child := n.child + [Rehashed(Leaf(word, item))]);
      RehashedShape(grown);
      RehashedShape(Leaf(word, item));
      forall i | 0 <= i < |grown.child| ensures |Rehashed(grown).child[i].child| == 0 {
        RehashedShape(grown.child[i]);
      }
  }
}
