/**
 * The verifiable SPARQL-style query over the hash trie.
 *
 * `simulateSPARQLQuery` answers the two-pattern join
 * `<subject> p1 ?o . ?o p2 ?x`: the subject's bucket gives the step-1
 * triples; each of them with predicate `p1` sends the query to the bucket
 * of its object, whose triples with predicate `p2` are joined.  Every joined
 * triple comes with a membership proof for its subject and one salted share
 * of its data digest per party, and the run leaves a trace.
 * `extendedSPARQL` then keeps the joined triples whose object is a given
 * term (a SPARQL `FILTER (?o = term)`).
 *
 * Terms are byte strings (Go strings are); the trace lines are values of
 * `LogEntry` instead of formatted text.
 */
module VoSparql {
  import opened Primitives
  import opened HashTrie

  /** One party's share of a joined triple. */
  datatype Share = Share(owner: string, value: Bytes)

  /** One line of the query trace. */
  datatype LogEntry =
    | MatchSubject(term: Bytes)
    | FoundInStep1(count: nat)
    | JoiningOnObject(joinKey: Bytes)
    | Joined(data: Bytes)
    | AppliedFilter(term: Bytes, matches: nat)

  datatype QueryResult = QueryResult(data: seq<TripleItem>, proof: seq<Digest>, sharedValues: seq<seq<Share>>, queryLog: seq<LogEntry>)

  /** The zero `QueryResult{}` returned with every error. */
  const EmptyResult: QueryResult := QueryResult([], [], [], [])

  datatype QueryError = NoResultInStep1 | JoinProducedNoResult

  // ---------------------------------------------------------------------------
  // Hashing, salting and secret sharing

  /** `hashStr1`: the SHA-256 digest of a term. */
  function HashTerm(term: Bytes): Digest
  {
    Sha256(term)
  }

  /** The salt of the party at index `i`, `byte(i+1)`: it wraps around after 255. */
  function Salt(i: nat): byte
  {
    ((i + 1) % 256) as byte
  }

  function XorSalt(input: Bytes, salt: byte): Bytes
  {
    seq(|input|, i requires 0 <= i < |input| => input[i] ^ salt)
  }

  /** `xorWithSalt`: a fresh buffer of the input's length, filled byte by byte. */
  method XorWithSalt(input: Bytes, salt: byte) returns (output: Bytes)
    ensures output == XorSalt(input, salt)
  {
    var buffer := new byte[|input|];
    for i := 0 to |input|
      invariant forall k :: 0 <= k < i ==> buffer[k] == input[k] ^ salt
    {
      buffer[i] := input[i] ^ salt;
    }
    output := buffer[..];
  }

  /** Salting twice with the same salt gives the input back, so a party's salt unmasks its share. */
  lemma XorSaltInvolutive(input: Bytes, salt: byte)
    ensures XorSalt(XorSalt(input, salt), salt) == input
  {
    forall i | 0 <= i < |input|
      ensures XorSalt(XorSalt(input, salt), salt)[i] == input[i]
    {
      assert XorSalt(input, salt)[i] == input[i] ^ salt;
    }
  }

  lemma SaltValue(i: nat)
    ensures Salt(i) as int == (i + 1) % 256
  {
    var m := (i + 1) % 256;
    assert 0 <= m < 256;
    assert (m as byte) as int == m;
  }

  lemma XorCancels(x: byte, a: byte, b: byte)
    ensures x ^ a == x ^ b ==> a == b
  {
  }

  /** Parties fewer than 256 places apart get distinct salts, hence distinct shares of a non-empty digest. */
  lemma DistinctSalts(input: Bytes, i: nat, j: nat)
    requires |input| > 0 && i < j < i + 256
    ensures Salt(i) != Salt(j)
    ensures XorSalt(input, Salt(i)) != XorSalt(input, Salt(j))
  {
    SaltsDiffer(i, j);
    XorCancels(input[0], Salt(i), Salt(j));
    assert XorSalt(input, Salt(i))[0] != XorSalt(input, Salt(j))[0];
  }

  lemma SaltsDiffer(i: nat, j: nat)
    requires i < j < i + 256
    ensures Salt(i) != Salt(j)
  {
    SaltValue(i);
    SaltValue(j);
    ShiftChangesResidue(i + 1, j - i);
  }

  lemma ShiftChangesResidue(a: nat, d: nat)
    requires 0 < d < 256
    ensures (a + d) % 256 != a % 256
  {
    var q, r := a / 256, a % 256;
    if r + d < 256 {
      assert a + d == 256 * q + (r + d);
    } else {
      assert a + d == 256 * (q + 1) + (r + d - 256);
    }
  }

  /** The salt wraps: parties 256 apart get the same salt, and party 255 gets salt 0, so its share is the bare digest. */
  lemma SaltWraps(input: Bytes, i: nat)
    ensures Salt(i + 256) == Salt(i)
    ensures Salt(255) == 0 && XorSalt(input, Salt(255)) == input
  {
    assert (i + 256 + 1) % 256 == (i + 1) % 256;
    assert Salt(255) == 0 by {
      SaltValue(255);
    }
    forall k | 0 <= k < |input|
      ensures XorSalt(input, 0)[k] == input[k]
    {
    }
  }

  /** What `secretShare` hands out: party `i` receives the data digest salted with `Salt(i)`. */
  function SharesFor(data: Bytes, parties: seq<string>): seq<Share>
  {
    seq(|parties|, i requires 0 <= i < |parties| => Share(parties[i], XorSalt(Sha256(data), Salt(i))))
  }

  /** `secretShare`: one share per party, in party order. */
  method SecretShare(item: TripleItem, parties: seq<string>) returns (shares: seq<Share>)
    ensures shares == SharesFor(item.data, parties)
  {
    var hash := Sha256(item.data);
    var buffer := new Share[|parties|];
    for i := 0 to |parties|
      invariant forall k :: 0 <= k < i ==> buffer[k] == Share(parties[k], XorSalt(hash, Salt(k)))
    {
      var value := XorWithSalt(hash, Salt(i));
      buffer[i] := Share(parties[i], value);
    }
    shares := buffer[..];
  }

  /** Every party owns exactly one share, and unmasking it with the party's salt yields the data digest. */
  lemma SharesRecoverDigest(data: Bytes, parties: seq<string>)
    ensures |SharesFor(data, parties)| == |parties|
    ensures forall i :: 0 <= i < |parties| ==>
      SharesFor(data, parties)[i].owner == parties[i] &&
      XorSalt(SharesFor(data, parties)[i].value, Salt(i)) == Sha256(data)
  {
    forall i | 0 <= i < |parties|
      ensures XorSalt(SharesFor(data, parties)[i].value, Salt(i)) == Sha256(data)
    {
      XorSaltInvolutive(Sha256(data), Salt(i));
    }
  }

  // ---------------------------------------------------------------------------
  // Comparing and filtering

  /** `compareHash`: lengths first, then byte by byte. */
  method CompareHash(h1: Bytes, h2: Bytes) returns (equal: bool)
    ensures equal <==> h1 == h2
  {
    if |h1| != |h2| {
      return false;
    }
    for i := 0 to |h1|
      invariant h1[..i] == h2[..i]
    {
      if h1[i] != h2[i] {
        return false;
      }
      assert h1[..i + 1] == h1[..i] + [h1[i]] && h2[..i + 1] == h2[..i] + [h2[i]];
    }
    assert h1 == h1[..|h1|] && h2 == h2[..|h2|];
    return true;
  }

  /** The triple component a filter or a join compares. */
  datatype Role = Predicate | Object

  function Component(t: Triple, role: Role): Digest
  {
    match role
    case Predicate => t.predictHash
    case Object => t.objectHash
  }

  /** The items among the first `n` whose `role` component is `h`, in their original order. */
  function MatchingPrefix(items: seq<TripleItem>, role: Role, h: Bytes, n: nat): (r: seq<TripleItem>)
    requires n <= |items|
    ensures |r| <= n
  {
    if n == 0 then []
    else
      var rest := MatchingPrefix(items, role, h, n - 1);
      if Component(items[n - 1].triple, role) == h then rest + [items[n - 1]] else rest
  }

  /** The items whose `role` component is `h`, in their original order. */
  function Matching(items: seq<TripleItem>, role: Role, h: Bytes): (r: seq<TripleItem>)
    ensures |r| <= |items|
  {
    MatchingPrefix(items, role, h, |items|)
  }

  /** Only the first `n` items matter. */
  lemma {:induction false} MatchingPrefixTake(items: seq<TripleItem>, role: Role, h: Bytes, n: nat, m: nat)
    requires n <= m <= |items|
    ensures MatchingPrefix(items[..m], role, h, n) == MatchingPrefix(items, role, h, n)
  {
    if n > 0 {
      MatchingPrefixTake(items, role, h, n - 1, m);
      assert items[..m][n - 1] == items[n - 1];
    }
  }

  lemma MatchingSnoc(items: seq<TripleItem>, i: nat, role: Role, h: Bytes)
    requires i < |items|
    ensures Matching(items[..i + 1], role, h) ==
            Matching(items[..i], role, h) + (if Component(items[i].triple, role) == h then [items[i]] else [])
  {
    MatchingPrefixTake(items, role, h, i + 1, i + 1);
    MatchingPrefixTake(items, role, h, i, i);
  }

  /** Appending an item appends it to the matches exactly when it matches. */
  lemma MatchingAppend(items: seq<TripleItem>, x: TripleItem, role: Role, h: Bytes)
    ensures Matching(items + [x], role, h) == Matching(items, role, h) + (if Component(x.triple, role) == h then [x] else [])
  {
    var s := items + [x];
    MatchingSnoc(s, |items|, role, h);
    assert s[..|items| + 1] == s && s[..|items|] == items;
  }

  lemma {:induction false} MatchingPrefixAll(items: seq<TripleItem>, role: Role, h: Bytes, n: nat)
    requires n <= |items|
    requires forall i :: 0 <= i < n ==> Component(items[i].triple, role) == h
    ensures MatchingPrefix(items, role, h, n) == items[..n]
  {
    if n > 0 {
      MatchingPrefixAll(items, role, h, n - 1);
      assert items[..n] == items[..n - 1] + [items[n - 1]];
    }
  }

  /** When every item matches, nothing is dropped. */
  lemma MatchingAll(items: seq<TripleItem>, role: Role, h: Bytes)
    requires forall i :: 0 <= i < |items| ==> Component(items[i].triple, role) == h
    ensures Matching(items, role, h) == items
  {
    MatchingPrefixAll(items, role, h, |items|);
    assert items[..|items|] == items;
  }

  lemma {:induction false} MatchingPrefixMembers(items: seq<TripleItem>, role: Role, h: Bytes, n: nat, x: TripleItem)
    requires n <= |items|
    ensures x in MatchingPrefix(items, role, h, n) <==> x in items[..n] && Component(x.triple, role) == h
  {
    if n > 0 {
      MatchingPrefixMembers(items, role, h, n - 1, x);
      assert items[..n] == items[..n - 1] + [items[n - 1]];
    }
  }

  /** An item is kept exactly when it is among the input and its component matches. */
  lemma MatchingMembers(items: seq<TripleItem>, role: Role, h: Bytes, x: TripleItem)
    ensures x in Matching(items, role, h) <==> x in items && Component(x.triple, role) == h
  {
    MatchingPrefixMembers(items, role, h, |items|, x);
    assert items[..|items|] == items;
  }

  lemma {:induction false} MatchingPrefixCounts(items: seq<TripleItem>, role: Role, h: Bytes, n: nat, x: TripleItem)
    requires n <= |items|
    ensures multiset(MatchingPrefix(items, role, h, n))[x] ==
            if Component(x.triple, role) == h then multiset(items[..n])[x] else 0
  {
    if n > 0 {
      MatchingPrefixCounts(items, role, h, n - 1, x);
      assert items[..n] == items[..n - 1] + [items[n - 1]];
    }
  }

  /** Each item is kept as many times as it occurs, or not at all: the filter neither adds nor drops duplicates. */
  lemma MatchingCounts(items: seq<TripleItem>, role: Role, h: Bytes, x: TripleItem)
    ensures multiset(Matching(items, role, h))[x] ==
            if Component(x.triple, role) == h then multiset(items)[x] else 0
  {
    MatchingPrefixCounts(items, role, h, |items|, x);
    assert items[..|items|] == items;
  }

  /** Filtering twice by the same condition changes nothing more. */
  lemma MatchingIdempotent(items: seq<TripleItem>, role: Role, h: Bytes)
    ensures Matching(Matching(items, role, h), role, h) == Matching(items, role, h)
  {
    var m := Matching(items, role, h);
    forall i | 0 <= i < |m|
      ensures Component(m[i].triple, role) == h
    {
      MatchingMembers(items, role, h, m[i]);
    }
    MatchingAll(m, role, h);
  }

  /** `filterTripleByObject`: keep the items whose object hash is the term's digest. */
  method FilterTripleByObject(items: seq<TripleItem>, objectTerm: Bytes) returns (result: seq<TripleItem>)
    ensures result == Matching(items, Object, HashTerm(objectTerm))
  {
    result := [];
    var objectHash := HashTerm(objectTerm);
    for i := 0 to |items|
      invariant result == Matching(items[..i], Object, objectHash)
    {
      MatchingSnoc(items, i, Object, objectHash);
      var same := CompareHash(items[i].triple.objectHash, objectHash);
      if same {
        result := result + [items[i]];
      }
    }
    assert items[..|items|] == items;
  }

  // ---------------------------------------------------------------------------
  // The two-step query

  /** What the inner loop joins for one step-1 triple: the items of its object's bucket with predicate `h2`. */
  function JoinStep(root: Node, t1: TripleItem, h2: Digest): seq<TripleItem>
  {
    Matching(TripleQuery(root, t1.triple.objectHash), Predicate, h2)
  }

  /** What the first `n` step-1 triples join, in loop order; only triples with predicate `h1` join. */
  function JoinedUpTo(root: Node, step1: seq<TripleItem>, h1: Digest, h2: Digest, n: nat): seq<TripleItem>
    requires n <= |step1|
  {
    if n == 0 then []
    else
      var t1 := step1[n - 1];
      JoinedUpTo(root, step1, h1, h2, n - 1) + (if t1.triple.predictHash == h1 then JoinStep(root, t1, h2) else [])
  }

  /** Everything joined for the step-1 triples. */
  function JoinedItems(root: Node, step1: seq<TripleItem>, h1: Digest, h2: Digest): seq<TripleItem>
  {
    JoinedUpTo(root, step1, h1, h2, |step1|)
  }

  /** The trace entries for joined items. */
  function JoinedLog(items: seq<TripleItem>): seq<LogEntry>
  {
    seq(|items|, i requires 0 <= i < |items| => Joined(items[i].data))
  }

  /** The trace of the first `n` rounds of the join loop: each step-1 triple with predicate `h1` logs its join key, then what it joined. */
  function JoinLogUpTo(root: Node, step1: seq<TripleItem>, h1: Digest, h2: Digest, n: nat): seq<LogEntry>
    requires n <= |step1|
  {
    if n == 0 then []
    else
      var t1 := step1[n - 1];
      JoinLogUpTo(root, step1, h1, h2, n - 1) +
      (if t1.triple.predictHash == h1 then [JoiningOnObject(t1.triple.objectHash)] + JoinedLog(JoinStep(root, t1, h2)) else [])
  }

  /** The trace of the whole join loop. */
  function JoinLog(root: Node, step1: seq<TripleItem>, h1: Digest, h2: Digest): seq<LogEntry>
  {
    JoinLogUpTo(root, step1, h1, h2, |step1|)
  }

  /** The proofs of the first `n` items' subjects, concatenated (an empty proof adds nothing). */
  function ProofsUpTo(root: Node, items: seq<TripleItem>, n: nat): seq<Digest>
    requires Aligned(root) && n <= |items|
  {
    if n == 0 then []
    else ProofsUpTo(root, items, n - 1) + GenerateProof(root, items[n - 1].triple.subjectHash)
  }

  /** The proofs of the joined items' subjects, concatenated. */
  function ProofsFor(root: Node, items: seq<TripleItem>): seq<Digest>
    requires Aligned(root)
  {
    ProofsUpTo(root, items, |items|)
  }

  /** One row of shares per joined item. */
  function SharesOf(items: seq<TripleItem>, parties: seq<string>): seq<seq<Share>>
  {
    seq(|items|, i requires 0 <= i < |items| => SharesFor(items[i].data, parties))
  }

  /** The outcome `simulateSPARQLQuery` returns: a result and no error, or the empty result and an error. */
  function Answer(root: Node, subjectTerm: Bytes, predicate1: Bytes, predicate2: Bytes, parties: seq<string>): (QueryResult, Option<QueryError>)
    requires Aligned(root)
  {
    var step1 := TripleQuery(root, HashTerm(subjectTerm));
    if |step1| == 0 then (EmptyResult, Some(NoResultInStep1))
    else
      var h1, h2 := HashTerm(predicate1), HashTerm(predicate2);
      var joined := JoinedItems(root, step1, h1, h2);
      if |joined| == 0 then (EmptyResult, Some(JoinProducedNoResult))
      else
        var log := [MatchSubject(subjectTerm), FoundInStep1(|step1|)] + JoinLog(root, step1, h1, h2);
        (QueryResult(joined, ProofsFor(root, joined), SharesOf(joined, parties), log), None)
  }

  /** Only the first `n` step-1 triples matter. */
  lemma {:induction false} JoinUpToTake(root: Node, step1: seq<TripleItem>, h1: Digest, h2: Digest, n: nat, m: nat)
    requires n <= m <= |step1|
    ensures JoinedUpTo(root, step1[..m], h1, h2, n) == JoinedUpTo(root, step1, h1, h2, n)
    ensures JoinLogUpTo(root, step1[..m], h1, h2, n) == JoinLogUpTo(root, step1, h1, h2, n)
  {
    if n > 0 {
      JoinUpToTake(root, step1, h1, h2, n - 1, m);
      assert step1[..m][n - 1] == step1[n - 1];
    }
  }

  lemma JoinedItemsSnoc(root: Node, step1: seq<TripleItem>, i: nat, h1: Digest, h2: Digest)
    requires i < |step1|
    ensures JoinedItems(root, step1[..i + 1], h1, h2) ==
            JoinedItems(root, step1[..i], h1, h2) + (if step1[i].triple.predictHash == h1 then JoinStep(root, step1[i], h2) else [])
    ensures JoinLog(root, step1[..i + 1], h1, h2) ==
            JoinLog(root, step1[..i], h1, h2) +
            (if step1[i].triple.predictHash == h1 then [JoiningOnObject(step1[i].triple.objectHash)] + JoinedLog(JoinStep(root, step1[i], h2)) else [])
  {
    JoinUpToTake(root, step1, h1, h2, i + 1, i + 1);
    JoinUpToTake(root, step1, h1, h2, i, i);
  }

  lemma {:induction false} ProofsUpToTake(root: Node, items: seq<TripleItem>, n: nat, m: nat)
    requires Aligned(root) && n <= m <= |items|
    ensures ProofsUpTo(root, items[..m], n) == ProofsUpTo(root, items, n)
  {
    if n > 0 {
      ProofsUpToTake(root, items, n - 1, m);
      assert items[..m][n - 1] == items[n - 1];
    }
  }

  lemma ProofsForSnoc(root: Node, items: seq<TripleItem>, x: TripleItem)
    requires Aligned(root)
    ensures ProofsFor(root, items + [x]) == ProofsFor(root, items) + GenerateProof(root, x.triple.subjectHash)
  {
    var s := items + [x];
    ProofsUpToTake(root, s, |items|, |items|);
    assert s[..|items|] == items;
  }

  lemma SharesOfSnoc(items: seq<TripleItem>, x: TripleItem, parties: seq<string>)
    ensures SharesOf(items + [x], parties) == SharesOf(items, parties) + [SharesFor(x.data, parties)]
  {
  }

  lemma JoinedLogSnoc(items: seq<TripleItem>, x: TripleItem)
    ensures JoinedLog(items + [x]) == JoinedLog(items) + [Joined(x.data)]
  {
  }


  /** One more joined item keeps the join's accumulators in step: items, proofs, shares and trace. */
  lemma JoinOneMore(root: Node, parties: seq<string>, joinedBefore: seq<TripleItem>, logBefore: seq<LogEntry>,
                    m: seq<TripleItem>, x: TripleItem,
                    joined: seq<TripleItem>, proofs: seq<Digest>, shares: seq<seq<Share>>, log: seq<LogEntry>)
    requires Aligned(root)
    requires joined == joinedBefore + m && proofs == ProofsFor(root, joined) && shares == SharesOf(joined, parties)
    requires log == logBefore + JoinedLog(m)
    ensures joined + [x] == joinedBefore + (m + [x])
    ensures proofs + GenerateProof(root, x.triple.subjectHash) == ProofsFor(root, joined + [x])
    ensures shares + [SharesFor(x.data, parties)] == SharesOf(joined + [x], parties)
    ensures log + [Joined(x.data)] == logBefore + JoinedLog(m + [x])
  {
    AppendAssoc(joinedBefore, m, [x]);
    JoinedLogSnoc(m, x);
    AppendAssoc(logBefore, JoinedLog(m), [Joined(x.data)]);
    ProofsForSnoc(root, joined, x);
    SharesOfSnoc(joined, x, parties);
  }

  /** Joining one triple: append it, its shares, its subject's proof (when non-empty) and its trace entry. */
  method JoinTriple(t: Trie, triple2: TripleItem, parties: seq<string>,
                    joined: seq<TripleItem>, proofs: seq<Digest>, shares: seq<seq<Share>>, queryLog: seq<LogEntry>)
    returns (joined': seq<TripleItem>, proofs': seq<Digest>, shares': seq<seq<Share>>, queryLog': seq<LogEntry>)
    requires t.Valid()
    ensures joined' == joined + [triple2] && queryLog' == queryLog + [Joined(triple2.data)]
    ensures proofs' == proofs + GenerateProof(t.root, triple2.triple.subjectHash)
    ensures shares' == shares + [SharesFor(triple2.data, parties)]
  {
    joined' := joined + [triple2];
    var row := SecretShare(triple2, parties);
    shares' := shares + [row];
    var proof := GenerateProof(t.root, triple2.triple.subjectHash);
    proofs' := proofs;
    if |proof| > 0 {
      proofs' := proofs' + proof;
    }
    queryLog' := queryLog + [Joined(triple2.data)];
  }

  /**
   * The join for one step-1 triple with predicate `p1` (the body of the
   * outer loop of `simulateSPARQLQuery`): log the join key, query the
   * object's digest, and join every triple there with predicate `h2`,
   * sharing it, collecting its subject's proof and logging its data.
   */
  method JoinOnObject(t: Trie, triple1: TripleItem, h2: Digest, parties: seq<string>,
                      joined: seq<TripleItem>, proofs: seq<Digest>, shares: seq<seq<Share>>, queryLog: seq<LogEntry>)
    returns (joined': seq<TripleItem>, proofs': seq<Digest>, shares': seq<seq<Share>>, queryLog': seq<LogEntry>)
    requires t.Valid()
    requires proofs == ProofsFor(t.root, joined) && shares == SharesOf(joined, parties)
    ensures joined' == joined + JoinStep(t.root, triple1, h2)
    ensures proofs' == ProofsFor(t.root, joined') && shares' == SharesOf(joined', parties)
    ensures queryLog' == queryLog + ([JoiningOnObject(triple1.triple.objectHash)] + JoinedLog(JoinStep(t.root, triple1, h2)))
  {
    joined', proofs', shares' := joined, proofs, shares;
    var joinKey := triple1.triple.objectHash;
    queryLog' := queryLog + [JoiningOnObject(joinKey)];
    var step2 := t.Query(joinKey);
    ghost var logBefore := queryLog';
    ghost var m: seq<TripleItem> := [];
    for j := 0 to |step2|
      invariant m == Matching(step2[..j], Predicate, h2)
      invariant joined' == joined + m && queryLog' == logBefore + JoinedLog(m)
      invariant proofs' == ProofsFor(t.root, joined') && shares' == SharesOf(joined', parties)
    {
      var triple2 := step2[j];
      MatchingSnoc(step2, j, Predicate, h2);
      var isP2 := CompareHash(triple2.triple.predictHash, h2);
      if isP2 {
        JoinOneMore(t.root, parties, joined, logBefore, m, triple2, joined', proofs', shares', queryLog');
        joined', proofs', shares', queryLog' := JoinTriple(t, triple2, parties, joined', proofs', shares', queryLog');
        m := m + [triple2];
      }
    }
    assert step2[..|step2|] == step2;
    AppendAssoc(queryLog, [JoiningOnObject(joinKey)], JoinedLog(m));
  }

  /**
   * `simulateSPARQLQuery`: step 1 queries the subject's digest; for each
   * step-1 triple whose predicate is `predicate1`, step 2 queries its object's
   * digest and joins the triples whose predicate is `predicate2`, sharing each
   * and collecting the proof of its subject.
   */
  method SimulateQuery(subjectTerm: Bytes, predicate1: Bytes, predicate2: Bytes, t: Trie, parties: seq<string>)
    returns (res: QueryResult, err: Option<QueryError>)
    requires t.Valid()
    ensures (res, err) == Answer(t.root, subjectTerm, predicate1, predicate2, parties)
  {
    var queryLog := [MatchSubject(subjectTerm)];
    var step1 := t.Query(HashTerm(subjectTerm));
    if |step1| == 0 {
      return EmptyResult, Some(NoResultInStep1);
    }
    var h1, h2 := HashTerm(predicate1), HashTerm(predicate2);
    var joined: seq<TripleItem> := [];
    var proofs: seq<Digest> := [];
    var shares: seq<seq<Share>> := [];
    queryLog := queryLog + [FoundInStep1(|step1|)];
    ghost var header := queryLog;
    assert header == [MatchSubject(subjectTerm), FoundInStep1(|step1|)];
    for i := 0 to |step1|
      invariant joined == JoinedItems(t.root, step1[..i], h1, h2)
      invariant proofs == ProofsFor(t.root, joined) && shares == SharesOf(joined, parties)
      invariant queryLog == header + JoinLog(t.root, step1[..i], h1, h2)
    {
      var triple1 := step1[i];
      JoinedItemsSnoc(t.root, step1, i, h1, h2);
      var isP1 := CompareHash(triple1.triple.predictHash, h1);
      if isP1 {
        AppendAssoc(header, JoinLog(t.root, step1[..i], h1, h2),
                    [JoiningOnObject(triple1.triple.objectHash)] + JoinedLog(JoinStep(t.root, triple1, h2)));
        joined, proofs, shares, queryLog := JoinOnObject(t, triple1, h2, parties, joined, proofs, shares, queryLog);
      }
    }
    assert step1[..|step1|] == step1;
    if |joined| == 0 {
      return EmptyResult, Some(JoinProducedNoResult);
    }
    return QueryResult(joined, proofs, shares, queryLog), None;
  }

  /** The outcome of `extendedSPARQL`: errors pass through; otherwise the data is filtered by object and the filter logged. */
  function ExtendedAnswer(root: Node, subject: Bytes, pred1: Bytes, pred2: Bytes, filterObj: Bytes, parties: seq<string>): (QueryResult, Option<QueryError>)
    requires Aligned(root)
  {
    Filtered(Answer(root, subject, pred1, pred2, parties), filterObj)
  }

  /** The filter step of `extendedSPARQL` applied to an outcome of the two-step query. */
  function Filtered(outcome: (QueryResult, Option<QueryError>), filterObj: Bytes): (QueryResult, Option<QueryError>)
  {
    var (res, err) := outcome;
    if err.Some? then (res, err)
    else
      var filtered := Matching(res.data, Object, HashTerm(filterObj));
      (res.(data := filtered, queryLog := res.queryLog + [AppliedFilter(filterObj, |filtered|)]), None)
  }

  /** `extendedSPARQL`: the two-step query, then `FILTER (?o = filterObj)` on its data. */
  method ExtendedSparql(subject: Bytes, pred1: Bytes, pred2: Bytes, filterObj: Bytes, t: Trie, parties: seq<string>)
    returns (res: QueryResult, err: Option<QueryError>)
    requires t.Valid()
    ensures (res, err) == ExtendedAnswer(t.root, subject, pred1, pred2, filterObj, parties)
  {
    res, err := SimulateQuery(subject, pred1, pred2, t, parties);
    if err.Some? {
      return;
    }
    var filtered := FilterTripleByObject(res.data, filterObj);
    res := res.(data := filtered, queryLog := res.queryLog + [AppliedFilter(filterObj, |filtered|)]);
  }

  // ---------------------------------------------------------------------------
  // What an answer means

  /** `x` is what the join pairs with some step-1 triple: that triple has predicate `h1`, and `x`, found under its object, has predicate `h2`. */
  ghost predicate JoinWitness(root: Node, step1: seq<TripleItem>, h1: Digest, h2: Digest, x: TripleItem)
  {
    exists k :: 0 <= k < |step1| && step1[k].triple.predictHash == h1 &&
      x in TripleQuery(root, step1[k].triple.objectHash) && x.triple.predictHash == h2
  }

  /** The join is sound and complete: exactly the witnessed items are joined. */
  lemma JoinedMembers(root: Node, step1: seq<TripleItem>, h1: Digest, h2: Digest, x: TripleItem)
    ensures x in JoinedItems(root, step1, h1, h2) <==> JoinWitness(root, step1, h1, h2, x)
  {
    if x in JoinedItems(root, step1, h1, h2) {
      JoinedSound(root, step1, h1, h2, |step1|, x);
    }
    if JoinWitness(root, step1, h1, h2, x) {
      var k :| 0 <= k < |step1| && step1[k].triple.predictHash == h1 &&
        x in TripleQuery(root, step1[k].triple.objectHash) && x.triple.predictHash == h2;
      JoinedComplete(root, step1, h1, h2, |step1|, k, x);
    }
  }

  lemma {:induction false} JoinedSound(root: Node, step1: seq<TripleItem>, h1: Digest, h2: Digest, n: nat, x: TripleItem)
    requires n <= |step1| && x in JoinedUpTo(root, step1, h1, h2, n)
    ensures exists k :: 0 <= k < n && step1[k].triple.predictHash == h1 &&
                        x in TripleQuery(root, step1[k].triple.objectHash) && x.triple.predictHash == h2
  {
    var last := step1[n - 1];
    if x in JoinedUpTo(root, step1, h1, h2, n - 1) {
      JoinedSound(root, step1, h1, h2, n - 1, x);
    } else {
      MatchingMembers(TripleQuery(root, last.triple.objectHash), Predicate, h2, x);
    }
  }

  lemma {:induction false} JoinedComplete(root: Node, step1: seq<TripleItem>, h1: Digest, h2: Digest, n: nat, k: nat, x: TripleItem)
    requires k < n <= |step1| && step1[k].triple.predictHash == h1
    requires x in TripleQuery(root, step1[k].triple.objectHash) && x.triple.predictHash == h2
    ensures x in JoinedUpTo(root, step1, h1, h2, n)
  {
    if k == n - 1 {
      MatchingMembers(TripleQuery(root, step1[k].triple.objectHash), Predicate, h2, x);
    } else {
      JoinedComplete(root, step1, h1, h2, n - 1, k, x);
    }
  }

  /** The trace of the join holds one join-key entry per step-1 triple with predicate `h1` and one entry per joined item. */
  lemma JoinLogLength(root: Node, step1: seq<TripleItem>, h1: Digest, h2: Digest)
    ensures |JoinLog(root, step1, h1, h2)| == |Matching(step1, Predicate, h1)| + |JoinedItems(root, step1, h1, h2)|
  {
    JoinLogLengthUpTo(root, step1, h1, h2, |step1|);
  }

  lemma {:induction false} JoinLogLengthUpTo(root: Node, step1: seq<TripleItem>, h1: Digest, h2: Digest, n: nat)
    requires n <= |step1|
    ensures |JoinLogUpTo(root, step1, h1, h2, n)| == |MatchingPrefix(step1, Predicate, h1, n)| + |JoinedUpTo(root, step1, h1, h2, n)|
  {
    if n > 0 {
      JoinLogLengthUpTo(root, step1, h1, h2, n - 1);
    }
  }

  /** The collected proof is empty exactly when no joined item's subject is keyed anywhere below the root. */
  lemma ProofsForEmpty(root: Node, items: seq<TripleItem>)
    requires Aligned(root)
    ensures ProofsFor(root, items) == [] <==> forall i :: 0 <= i < |items| ==> GenerateProof(root, items[i].triple.subjectHash) == []
  {
    ProofsEmptyUpTo(root, items, |items|);
  }

  lemma {:induction false} ProofsEmptyUpTo(root: Node, items: seq<TripleItem>, n: nat)
    requires Aligned(root) && n <= |items|
    ensures ProofsUpTo(root, items, n) == [] <==> forall i :: 0 <= i < n ==> GenerateProof(root, items[i].triple.subjectHash) == []
  {
    if n > 0 {
      ProofsEmptyUpTo(root, items, n - 1);
      var p, q := ProofsUpTo(root, items, n - 1), GenerateProof(root, items[n - 1].triple.subjectHash);
      assert ProofsUpTo(root, items, n) == p + q;
      assert p + q == [] <==> p == [] && q == [] by {
        assert |p + q| == |p| + |q|;
      }
    }
  }

  /**
   * The errors of `simulateSPARQLQuery`: no step-1 triple, or step-1 triples
   * but nothing to join; with an error the result is empty, and without one
   * the data is exactly the join's witnesses.
   */
  lemma AnswerOutcome(root: Node, subjectTerm: Bytes, predicate1: Bytes, predicate2: Bytes, parties: seq<string>)
    requires Aligned(root)
    ensures
      var (res, err) := Answer(root, subjectTerm, predicate1, predicate2, parties);
      var step1 := TripleQuery(root, HashTerm(subjectTerm));
      var h1, h2 := HashTerm(predicate1), HashTerm(predicate2);
      (err == Some(NoResultInStep1) <==> step1 == []) &&
      (err == Some(JoinProducedNoResult) <==> step1 != [] && forall x :: !JoinWitness(root, step1, h1, h2, x)) &&
      (err.Some? ==> res == EmptyResult) &&
      (err.None? ==> res.data != [] && forall x :: x in res.data <==> JoinWitness(root, step1, h1, h2, x))
  {
    var step1 := TripleQuery(root, HashTerm(subjectTerm));
    var h1, h2 := HashTerm(predicate1), HashTerm(predicate2);
    forall x
      ensures x in JoinedItems(root, step1, h1, h2) <==> JoinWitness(root, step1, h1, h2, x)
    {
      JoinedMembers(root, step1, h1, h2, x);
    }
    var joined := JoinedItems(root, step1, h1, h2);
    if joined != [] {
      assert joined[0] in joined;
    }
  }

  /** Each row of shares has one share per party, owned by that party, which unmasks to the digest of its item's data. */
  lemma SharesOfRecover(items: seq<TripleItem>, parties: seq<string>)
    ensures |SharesOf(items, parties)| == |items|
    ensures forall i :: 0 <= i < |items| ==> |SharesOf(items, parties)[i]| == |parties|
    ensures forall i, k :: 0 <= i < |items| && 0 <= k < |parties| ==>
      SharesOf(items, parties)[i][k].owner == parties[k] &&
      XorSalt(SharesOf(items, parties)[i][k].value, Salt(k)) == Sha256(items[i].data)
  {
    forall i | 0 <= i < |items|
      ensures |SharesOf(items, parties)[i]| == |parties|
      ensures forall k :: 0 <= k < |parties| ==>
        SharesOf(items, parties)[i][k].owner == parties[k] &&
        XorSalt(SharesOf(items, parties)[i][k].value, Salt(k)) == Sha256(items[i].data)
    {
      SharesRecoverDigest(items[i].data, parties);
    }
  }

  /** The parts of a successful answer. */
  lemma AnswerParts(root: Node, subjectTerm: Bytes, predicate1: Bytes, predicate2: Bytes, parties: seq<string>)
    requires Aligned(root)
    ensures
      var (res, err) := Answer(root, subjectTerm, predicate1, predicate2, parties);
      var step1 := TripleQuery(root, HashTerm(subjectTerm));
      var joined := JoinedItems(root, step1, HashTerm(predicate1), HashTerm(predicate2));
      err.None? ==>
        res.data == joined && res.proof == ProofsFor(root, joined) && res.sharedValues == SharesOf(joined, parties) &&
        res.queryLog == [MatchSubject(subjectTerm), FoundInStep1(|step1|)] + JoinLog(root, step1, HashTerm(predicate1), HashTerm(predicate2))
  {
  }

  /** Every successful answer carries one row of shares per joined item, one share per party, each unmasking to the digest of its item's data. */
  lemma AnswerShares(root: Node, subjectTerm: Bytes, predicate1: Bytes, predicate2: Bytes, parties: seq<string>)
    requires Aligned(root)
    ensures
      var (res, err) := Answer(root, subjectTerm, predicate1, predicate2, parties);
      err.None? ==>
        |res.sharedValues| == |res.data| &&
        (forall i :: 0 <= i < |res.data| ==> |res.sharedValues[i]| == |parties|) &&
        (forall i, k :: 0 <= i < |res.data| && 0 <= k < |parties| ==>
          res.sharedValues[i][k].owner == parties[k] &&
          XorSalt(res.sharedValues[i][k].value, Salt(k)) == Sha256(res.data[i].data))
  {
    AnswerParts(root, subjectTerm, predicate1, predicate2, parties);
    var (res, err) := Answer(root, subjectTerm, predicate1, predicate2, parties);
    if err.None? {
      SharesOfRecover(res.data, parties);
    }
  }

  /** The proof of a successful answer is empty only when no joined subject is keyed anywhere below the root. */
  lemma AnswerProof(root: Node, subjectTerm: Bytes, predicate1: Bytes, predicate2: Bytes, parties: seq<string>)
    requires Aligned(root)
    ensures
      var (res, err) := Answer(root, subjectTerm, predicate1, predicate2, parties);
      err.None? ==>
        (res.proof == [] <==> forall i :: 0 <= i < |res.data| ==> !HasDescendant(root, res.data[i].triple.subjectHash))
  {
    AnswerParts(root, subjectTerm, predicate1, predicate2, parties);
    var (res, err) := Answer(root, subjectTerm, predicate1, predicate2, parties);
    if err.None? {
      ProofsForEmpty(root, res.data);
      forall i | 0 <= i < |res.data|
        ensures GenerateProof(root, res.data[i].triple.subjectHash) == [] <==> !HasDescendant(root, res.data[i].triple.subjectHash)
      {
      }
    }
  }

  /** The trace of a successful answer starts with the subject and the step-1 count, then holds one entry per joining step-1 triple and one per joined item. */
  lemma AnswerTrace(root: Node, subjectTerm: Bytes, predicate1: Bytes, predicate2: Bytes, parties: seq<string>)
    requires Aligned(root)
    ensures
      var (res, err) := Answer(root, subjectTerm, predicate1, predicate2, parties);
      var step1 := TripleQuery(root, HashTerm(subjectTerm));
      err.None? ==>
        res.queryLog[..2] == [MatchSubject(subjectTerm), FoundInStep1(|step1|)] &&
        |res.queryLog| == 2 + |Matching(step1, Predicate, HashTerm(predicate1))| + |res.data|
  {
    AnswerParts(root, subjectTerm, predicate1, predicate2, parties);
    var step1 := TripleQuery(root, HashTerm(subjectTerm));
    JoinLogLength(root, step1, HashTerm(predicate1), HashTerm(predicate2));
  }

  /**
   * `extendedSPARQL` keeps the error of the two-step query, and on success
   * keeps exactly the joined items whose object is the filter term's digest,
   * with their multiplicities, and appends the filter's entry to the trace;
   * proofs and shares stay those of the unfiltered join.
   */
  lemma ExtendedOutcome(root: Node, subject: Bytes, pred1: Bytes, pred2: Bytes, filterObj: Bytes, parties: seq<string>)
    requires Aligned(root)
    ensures
      var (r0, e0) := Answer(root, subject, pred1, pred2, parties);
      var (r, e) := ExtendedAnswer(root, subject, pred1, pred2, filterObj, parties);
      e == e0 && (e.Some? ==> r == EmptyResult) &&
      (e.None? ==>
        (forall x :: x in r.data <==> x in r0.data && x.triple.objectHash == HashTerm(filterObj)) &&
        (forall x :: multiset(r.data)[x] == if x.triple.objectHash == HashTerm(filterObj) then multiset(r0.data)[x] else 0) &&
        r.proof == r0.proof && r.sharedValues == r0.sharedValues &&
        r.queryLog == r0.queryLog + [AppliedFilter(filterObj, |r.data|)])
  {
    var (r0, e0) := Answer(root, subject, pred1, pred2, parties);
    AnswerOutcome(root, subject, pred1, pred2, parties);
    forall x
      ensures x in Matching(r0.data, Object, HashTerm(filterObj)) <==> x in r0.data && x.triple.objectHash == HashTerm(filterObj)
      ensures multiset(Matching(r0.data, Object, HashTerm(filterObj)))[x] ==
              if x.triple.objectHash == HashTerm(filterObj) then multiset(r0.data)[x] else 0
    {
      MatchingMembers(r0.data, Object, HashTerm(filterObj), x);
      MatchingCounts(r0.data, Object, HashTerm(filterObj), x);
    }
  }

  // ---------------------------------------------------------------------------
  // The scenarios of vo_sparql_test.go

  /** A step 1 with a single triple `t1` with predicate `p1` whose object's bucket has a single triple `t2` with predicate `p2`: the answer is `t2` with its shares, its subject's proof and the trace of the join. */
  lemma AnswerSingleJoin(root: Node, subject: Bytes, pred1: Bytes, pred2: Bytes, parties: seq<string>,
                         t1: TripleItem, t2: TripleItem, step2: seq<TripleItem>)
    requires Aligned(root)
    requires TripleQuery(root, HashTerm(subject)) == [t1] && t1.triple.predictHash == HashTerm(pred1)
    requires TripleQuery(root, t1.triple.objectHash) == step2 && Matching(step2, Predicate, HashTerm(pred2)) == [t2]
    ensures Answer(root, subject, pred1, pred2, parties) ==
      (QueryResult([t2], GenerateProof(root, t2.triple.subjectHash), [SharesFor(t2.data, parties)],
                   [MatchSubject(subject), FoundInStep1(1), JoiningOnObject(t1.triple.objectHash), Joined(t2.data)]),
       None)
  {
    var h1, h2 := HashTerm(pred1), HashTerm(pred2);
    assert JoinStep(root, t1, h2) == [t2];
    assert JoinedUpTo(root, [t1], h1, h2, 0) == [] && JoinLogUpTo(root, [t1], h1, h2, 0) == [];
    assert JoinedItems(root, [t1], h1, h2) == [t2];
    assert JoinedLog([t2]) == [Joined(t2.data)];
    assert JoinLog(root, [t1], h1, h2) == [JoiningOnObject(t1.triple.objectHash), Joined(t2.data)];
    assert ProofsUpTo(root, [t2], 0) == [];
    assert ProofsFor(root, [t2]) == GenerateProof(root, t2.triple.subjectHash);
    assert SharesOf([t2], parties) == [SharesFor(t2.data, parties)];
    var step1 := TripleQuery(root, HashTerm(subject));
    assert JoinedItems(root, step1, h1, h2) == [t2];
    assert Answer(root, subject, pred1, pred2, parties).1 == None;
    assert Answer(root, subject, pred1, pred2, parties).0.data == [t2];
    assert Answer(root, subject, pred1, pred2, parties).0.proof == GenerateProof(root, t2.triple.subjectHash);
    assert Answer(root, subject, pred1, pred2, parties).0.sharedValues == [SharesFor(t2.data, parties)];
    assert Answer(root, subject, pred1, pred2, parties).0.queryLog == [MatchSubject(subject), FoundInStep1(1), JoiningOnObject(t1.triple.objectHash), Joined(t2.data)];
  }

  /** The single join where `t2`'s object is the filter's: the extended answer is `t2`, one row of its shares and a non-empty proof. */
  lemma ExtendedSingleJoin(root: Node, subject: Bytes, pred1: Bytes, pred2: Bytes, filterObj: Bytes, parties: seq<string>,
                           t1: TripleItem, t2: TripleItem, step2: seq<TripleItem>)
    requires Aligned(root)
    requires TripleQuery(root, HashTerm(subject)) == [t1] && t1.triple.predictHash == HashTerm(pred1)
    requires TripleQuery(root, t1.triple.objectHash) == step2 && Matching(step2, Predicate, HashTerm(pred2)) == [t2]
    requires t2.triple.objectHash == HashTerm(filterObj) && t2.triple.subjectHash == t1.triple.objectHash
    ensures var (res, err) := ExtendedAnswer(root, subject, pred1, pred2, filterObj, parties);
      err == None && res.data == [t2] && res.sharedValues == [SharesFor(t2.data, parties)] && res.proof != []
  {
    JoinedSubjectProved(root, t1, t2, step2, HashTerm(pred2));
    var res := QueryResult([t2], GenerateProof(root, t2.triple.subjectHash), [SharesFor(t2.data, parties)],
                           [MatchSubject(subject), FoundInStep1(1), JoiningOnObject(t1.triple.objectHash), Joined(t2.data)]);
    AnswerSingleJoin(root, subject, pred1, pred2, parties, t1, t2, step2);
    FilterKeepsAll(res, filterObj);
  }

  /** A triple joined on the object of `t1` whose subject is that object has a non-empty proof. */
  lemma JoinedSubjectProved(root: Node, t1: TripleItem, t2: TripleItem, step2: seq<TripleItem>, h2: Digest)
    requires Aligned(root)
    requires TripleQuery(root, t1.triple.objectHash) == step2 && Matching(step2, Predicate, h2) == [t2]
    requires t2.triple.subjectHash == t1.triple.objectHash
    ensures GenerateProof(root, t2.triple.subjectHash) != []
  {
    MatchingMembers(step2, Predicate, h2, t2);
    TripleQueryFound(root, t1.triple.objectHash);
  }

  /** A filter every row already passes keeps the rows, proofs and shares and only appends its entry to the trace. */
  lemma FilterKeepsAll(res: QueryResult, filterObj: Bytes)
    requires forall i :: 0 <= i < |res.data| ==> res.data[i].triple.objectHash == HashTerm(filterObj)
    ensures var (r, err) := Filtered((res, None), filterObj);
      err == None && r.data == res.data && r.proof == res.proof && r.sharedValues == res.sharedValues &&
      r.queryLog == res.queryLog + [AppliedFilter(filterObj, |res.data|)]
  {
    MatchingAll(res.data, Object, HashTerm(filterObj));
  }

  /** A step 1 with a single triple `t1` with predicate `p1` whose object's bucket holds only `t1` itself, and `p1` is not `p2`: the join fails, with or without a filter. */
  lemma JoinFailsOnSingleTriple(root: Node, subject: Bytes, pred1: Bytes, pred2: Bytes, filterObj: Bytes, parties: seq<string>, t1: TripleItem)
    requires Aligned(root)
    requires TripleQuery(root, HashTerm(subject)) == [t1] && t1.triple.predictHash == HashTerm(pred1)
    requires TripleQuery(root, t1.triple.objectHash) == [t1] && HashTerm(pred1) != HashTerm(pred2)
    ensures Answer(root, subject, pred1, pred2, parties) == (EmptyResult, Some(JoinProducedNoResult))
    ensures ExtendedAnswer(root, subject, pred1, pred2, filterObj, parties) == (EmptyResult, Some(JoinProducedNoResult))
  {
    assert MatchingPrefix([t1], Predicate, HashTerm(pred2), 0) == [];
    assert Matching([t1], Predicate, HashTerm(pred2)) == [];
    assert JoinedUpTo(root, [t1], HashTerm(pred1), HashTerm(pred2), 0) == [];
    assert JoinedItems(root, [t1], HashTerm(pred1), HashTerm(pred2)) == [];
  }

  /** Which of the extended scenario's triples mention which term, and which survive the predicate and object tests. */
  lemma ExtendedHits(bob: Digest, owns: Digest, nft: Digest, typ: Digest, art: Digest, creator: Digest, alice: Digest,
                     t1: TripleItem, t2: TripleItem, t3: TripleItem)
    requires DistinctLeadingBytes([bob, owns, nft, typ, art, creator, alice])
    requires t1.triple == Triple(bob, owns, nft) && t2.triple == Triple(nft, typ, art) && t3.triple == Triple(nft, creator, alice)
    ensures Hits(t1, bob) + Hits(t2, bob) + Hits(t3, bob) == [t1]
    ensures Hits(t1, nft) + Hits(t2, nft) + Hits(t3, nft) == [t1, t2, t3]
    ensures Matching([t1, t2, t3], Predicate, typ) == [t2]
    ensures var hs := [bob, owns, nft, typ, art, creator, alice];
      HashesAmong(t1, hs) && HashesAmong(t2, hs) && HashesAmong(t3, hs)
  {
    var hs := [bob, owns, nft, typ, art, creator, alice];
    assert bob != owns && bob != nft && nft != typ && nft != art && nft != creator && nft != alice && owns != typ && creator != typ by {
      assert hs[0][0] != hs[1][0] && hs[0][0] != hs[2][0] && hs[2][0] != hs[3][0] && hs[2][0] != hs[4][0];
      assert hs[2][0] != hs[5][0] && hs[2][0] != hs[6][0] && hs[1][0] != hs[3][0] && hs[5][0] != hs[3][0];
    }
    var s := [t1, t2, t3];
    assert MatchingPrefix(s, Predicate, typ, 1) == [];
    assert MatchingPrefix(s, Predicate, typ, 2) == [t2];
  }

  /**
   * `TestExtendedSPARQLQuery`: "Bob owns NFT123", "NFT123 is Art" and
   * "NFT123 created by Alice" inserted into a new trie; the query for what
   * Bob owns that has type Art, filtered on Art, succeeds with the single
   * triple "NFT123 is Art", one share for each of the three parties (each
   * unmasking to the digest of its data) and a non-empty proof.  The term
   * arguments stand for the seven terms; the test relies on their digests
   * having distinct first bytes.  `d1`, `d2`, `d3` are the triples' data.
   */
  method ExtendedScenario(bobT: Bytes, ownsT: Bytes, nftT: Bytes, typeT: Bytes, artT: Bytes, creatorT: Bytes, aliceT: Bytes,
                          d1: Bytes, d2: Bytes, d3: Bytes)
    returns (res: QueryResult, err: Option<QueryError>)
    requires DistinctLeadingBytes([HashTerm(bobT), HashTerm(ownsT), HashTerm(nftT), HashTerm(typeT), HashTerm(artT), HashTerm(creatorT), HashTerm(aliceT)])
    ensures err == None
    ensures res.data == [TripleItem(Triple(HashTerm(nftT), HashTerm(typeT), HashTerm(artT)), d2)]
    ensures |res.sharedValues| == 1 && |res.sharedValues[0]| == 3
    ensures forall k :: 0 <= k < 3 ==> XorSalt(res.sharedValues[0][k].value, Salt(k)) == Sha256(d2)
    ensures res.proof != []
  {
    var bob, owns, nft, typ := HashTerm(bobT), HashTerm(ownsT), HashTerm(nftT), HashTerm(typeT);
    var art, creator, alice := HashTerm(artT), HashTerm(creatorT), HashTerm(aliceT);
    var parties := ["Alice", "Bob", "Carol"];
    var t1 := TripleItem(Triple(bob, owns, nft), d1);
    var t2 := TripleItem(Triple(nft, typ, art), d2);
    var t3 := TripleItem(Triple(nft, creator, alice), d3);
    var t := new Trie();
    t.TripleInsert(t1);
    t.TripleInsert(t2);
    t.TripleInsert(t3);
    var hs := [bob, owns, nft, typ, art, creator, alice];
    ExtendedHits(bob, owns, nft, typ, art, creator, alice, t1, t2, t3);
    ScenarioQueries(EmptyRoot, t1, t2, t3, hs, bob, [t1]);
    ScenarioQueries(EmptyRoot, t1, t2, t3, hs, nft, [t1, t2, t3]);
    ExtendedSingleJoin(t.root, bobT, ownsT, typeT, artT, parties, t1, t2, [t1, t2, t3]);
    res, err := ExtendedSparql(bobT, ownsT, typeT, artT, t, parties);
    SharesRecoverDigest(d2, parties);
  }

  /** The failure scenario's triple mentions the subject once and the join key once, and its predicate is not the one joined on. */
  lemma FailureHits(charlie: Digest, owns: Digest, nft: Digest, typ: Digest, t1: TripleItem)
    requires DistinctLeadingBytes([charlie, owns, nft, typ])
    requires t1.triple == Triple(charlie, owns, nft)
    ensures Hits(t1, charlie) == [t1] && Hits(t1, nft) == [t1] && owns != typ
    ensures HashesAmong(t1, [charlie, owns, nft, typ])
  {
    var hs := [charlie, owns, nft, typ];
    assert charlie != owns && charlie != nft && owns != nft && owns != typ by {
      assert hs[0][0] != hs[1][0] && hs[0][0] != hs[2][0] && hs[1][0] != hs[2][0] && hs[1][0] != hs[3][0];
    }
  }

  /**
   * `TestSPARQLJoinFailure`: only "Charlie owns NFT456" in the trie; the
   * query for what Charlie owns that has a type fails in the join and
   * returns no data.
   */
  method JoinFailureScenario(charlieT: Bytes, ownsT: Bytes, nftT: Bytes, typeT: Bytes, artT: Bytes, d: Bytes)
    returns (res: QueryResult, err: Option<QueryError>)
    requires DistinctLeadingBytes([HashTerm(charlieT), HashTerm(ownsT), HashTerm(nftT), HashTerm(typeT)])
    ensures err == Some(JoinProducedNoResult) && res == EmptyResult
  {
    var charlie, owns, nft, typ := HashTerm(charlieT), HashTerm(ownsT), HashTerm(nftT), HashTerm(typeT);
    var t1 := TripleItem(Triple(charlie, owns, nft), d);
    var t := new Trie();
    t.TripleInsert(t1);
    var hs := [charlie, owns, nft, typ];
    FailureHits(charlie, owns, nft, typ, t1);
    ScenarioQuery(EmptyRoot, t1, hs, charlie, [t1]);
    ScenarioQuery(EmptyRoot, t1, hs, nft, [t1]);
    JoinFailsOnSingleTriple(t.root, charlieT, ownsT, typeT, artT, ["OrgX", "OrgY"], t1);
    res, err := ExtendedSparql(charlieT, ownsT, typeT, artT, t, ["OrgX", "OrgY"]);
  }
}
