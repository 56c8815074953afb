/**
 The two backward walks of the attestation graph: along supersedes pointers to the original,
 and along attesting pointers to a terminating attestation.
 */
module AttestationWalks {
  import opened Values
  import opened Attestation

  predicate DistinctHashes(c: seq<Att>) {
    forall i, j | 0 <= i < j < |c| :: c[i].hash != c[j].hash
  }

  predicate HasHash(c: seq<Att>, h: Hash) {
    exists i | 0 <= i < |c| :: c[i].hash == h
  }

  /** A history: each entry is what the one before it supersedes. */
  predicate History(store: Graph, start: Att, c: seq<Att>) {
    && |c| >= 1 && c[0] == start && DistinctHashes(c)
    && forall j | 0 < j < |c| :: c[j].hash in store && store[c[j].hash] == c[j] && Succeeds(c[j - 1], c[j].hash)
  }

  /** The walk may not go further: the chain is complete, broken, or closes a cycle. */
  predicate Ended(store: Graph, c: seq<Att>)
    requires c != []
  {
    var next := c[|c| - 1].supersedes;
    next.None? || next.value !in store || HasHash(c, next.value)
  }

  /** Stops on any store, cyclic or not. */
  method WalkSupersedesChain(start: Att, store: Graph) returns (chain: seq<Att>)
    requires Keyed(store)
    ensures History(store, start, chain) && Ended(store, chain)
  {
    chain := [start];
    var current, visited := start, {start.hash};
    while true
      invariant History(store, start, chain) && current == chain[|chain| - 1]
      invariant forall h :: h in visited <==> HasHash(chain, h)
      decreases store.Keys - visited
    {
      if current.supersedes.None? { break; }
      var prev := current.supersedes.value;
      if prev in visited { break; }
      if prev !in store { break; }
      ghost var before := chain;
      chain := chain + [store[prev]];
      visited := visited + {prev};
      current := store[prev];
      assert chain[|before|].hash == prev;
      forall h ensures h in visited <==> HasHash(chain, h) {
        if HasHash(before, h) {
          var i :| 0 <= i < |before| && before[i].hash == h;
          assert chain[i].hash == h;
        }
      }
    }
  }

  lemma {:induction false} HistoryDescends(store: Graph, rank: Hash -> nat, start: Att, c: seq<Att>, i: nat, j: nat)
    requires Keyed(store) && Acyclic(store, rank) && History(store, start, c) && i < j < |c|
    requires start.supersedes.Some? ==> rank(start.supersedes.value) < rank(start.hash)
    ensures rank(c[j].hash) < rank(c[i].hash)
    decreases j - i
  {
    assert c[j].hash in store && Succeeds(c[j - 1], c[j].hash);
    if i < j - 1 { HistoryDescends(store, rank, start, c, i, j - 1); }
  }

  /** When pointers are acyclic the walk never ends for a cycle: it reaches the original or a gap in the store. */
  lemma AcyclicHistoryIsComplete(store: Graph, rank: Hash -> nat, start: Att, c: seq<Att>)
    requires Keyed(store) && Acyclic(store, rank) && History(store, start, c) && Ended(store, c)
    requires start.supersedes.Some? ==> rank(start.supersedes.value) < rank(start.hash)
    ensures var next := c[|c| - 1].supersedes; next.None? || next.value !in store
  {
    var n := |c| - 1;
    var next := c[n].supersedes;
    if next.Some? && next.value in store {
      assert n > 0 ==> c[n].hash in store && store[c[n].hash] == c[n];
      var i :| 0 <= i < |c| && c[i].hash == next.value;
      if i < n { HistoryDescends(store, rank, start, c, i, n); }
    }
  }

  // ---------------------------------------------------------------- attesting chains

  predicate Linked(find: Hash -> Option<Att>, c: seq<Att>, j: nat)
    requires 0 < j < |c|
  {
    c[j - 1].attesting.Some? && find(c[j - 1].attesting.value) == Some(c[j])
  }

  /** Each entry authorizes the peer that attests the one before it. */
  predicate Authorized(find: Hash -> Option<Att>, start: Att, c: seq<Att>) {
    && |c| >= 1 && c[0] == start && DistinctHashes(c)
    && forall j | 0 < j < |c| :: Linked(find, c, j)
  }

  /** A chain the walk may return: it ends at its first terminating entry, within the depth bound. */
  predicate Terminated(find: Hash -> Option<Att>, stop: Att -> bool, maxDepth: nat, start: Att, c: seq<Att>) {
    && Authorized(find, start, c) && |c| <= maxDepth
    && stop(c[|c| - 1]) && forall j | 0 <= j < |c| - 1 :: !stop(c[j])
  }

  /** Authorized chains are determined by their length: the shorter of two is a prefix of the longer. */
  lemma {:induction false} ChainsAgree(find: Hash -> Option<Att>, start: Att, c: seq<Att>, d: seq<Att>, n: nat)
    requires Authorized(find, start, c) && Authorized(find, start, d) && n <= |c| && n <= |d|
    ensures forall i | 0 <= i < n :: c[i] == d[i]
  {
    if n > 1 {
      ChainsAgree(find, start, c, d, n - 1);
      assert c[n - 2] == d[n - 2];
      assert Linked(find, c, n - 1) && Linked(find, d, n - 1);
    }
  }

  /** A longer authorized chain goes on with the authorizer of the shorter one's last entry, a new one. */
  lemma LongerGoesOn(find: Hash -> Option<Att>, start: Att, c: seq<Att>, d: seq<Att>)
    requires Authorized(find, start, c) && Authorized(find, start, d) && |c| < |d|
    ensures c[|c| - 1].attesting.Some? && find(c[|c| - 1].attesting.value) == Some(d[|c|])
    ensures !HasHash(c, d[|c|].hash)
  {
    ChainsAgree(find, start, c, d, |c|);
    assert Linked(find, d, |c|);
  }

  /** A chain without a terminating entry that cannot be extended rules out every result. */
  lemma NoWayOn(find: Hash -> Option<Att>, stop: Att -> bool, maxDepth: nat, start: Att, c: seq<Att>, d: seq<Att>)
    requires Authorized(find, start, c) && forall j | 0 <= j < |c| :: !stop(c[j])
    requires var a := c[|c| - 1].attesting;
             a.None? || find(a.value).None? || HasHash(c, find(a.value).value.hash) || |c| >= maxDepth
    ensures !Terminated(find, stop, maxDepth, start, d)
  {
    if Authorized(find, start, d) {
      if |d| <= |c| { ChainsAgree(find, start, c, d, |d|); } else { LongerGoesOn(find, start, c, d); }
    }
  }

  /** Returns the terminated chain if there is one, and there is at most one. */
  method WalkAttestingChain(start: Att, stop: Att -> bool, find: Hash -> Option<Att>, maxDepth: nat)
    returns (result: Option<seq<Att>>)
    ensures result.Some? ==> Terminated(find, stop, maxDepth, start, result.value)
    ensures result.None? ==> forall d :: !Terminated(find, stop, maxDepth, start, d)
  {
    var chain, current, visited, depth := [start], start, {start.hash}, 0;
    while depth < maxDepth
      invariant Authorized(find, start, chain) && current == chain[|chain| - 1] && |chain| == depth + 1
      invariant depth <= maxDepth
      invariant forall j | 0 <= j < |chain| - 1 :: !stop(chain[j])
      invariant forall h :: h in visited <==> HasHash(chain, h)
    {
      if stop(current) { return Some(chain); }
      var parent := if current.attesting.Some? then find(current.attesting.value) else None;
      if parent.None? || parent.value.hash in visited {
        forall d ensures !Terminated(find, stop, maxDepth, start, d) { NoWayOn(find, stop, maxDepth, start, chain, d); }
        return None;
      }
      ghost var before := chain;
      chain := chain + [parent.value];
      visited := visited + {parent.value.hash};
      current := parent.value;
      depth := depth + 1;
      assert chain[|before|].hash == parent.value.hash;
      assert Linked(find, chain, |before|);
      assert forall j | 0 < j < |before| :: Linked(find, before, j) && Linked(find, chain, j);
      forall h ensures h in visited <==> HasHash(chain, h) {
        if HasHash(before, h) {
          var i :| 0 <= i < |before| && before[i].hash == h;
          assert chain[i].hash == h;
        }
      }
    }
    forall d ensures !Terminated(find, stop, maxDepth, start, d) {
      if Terminated(find, stop, maxDepth, start, d) { ChainsAgree(find, start, chain, d, |d|); }
    }
    return None;
  }
}
