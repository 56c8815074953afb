/**
 The attestation graph: liveness as a mutual recursion over supersedes and self-revocation edges
 with an in-progress guard, and its guard-free and closed forms.
 Time is a parameter, so every answer is about one instant.
 */
module Attestation {
  import opened Values

  type Hash = nat

  /** A `system/attestation` entity with the fields liveness reads. */
  datatype Att = Att(
    hash: Hash,
    attesting: Option<Hash>, attested: Option<Hash>, supersedes: Option<Hash>,
    revocation: bool,
    notBefore: Option<int>, expiresAt: Option<int>)

  /** The tree-bound attestations by content hash. */
  type Graph = map<Hash, Att>

  predicate Keyed(g: Graph) {
    forall h | h in g :: g[h].hash == h
  }

  predicate Revokes(r: Att, a: Att) {
    r.revocation && r.attested == Some(a.hash) && r.attesting == a.attesting
  }

  predicate Succeeds(s: Att, h: Hash) {
    s.supersedes == Some(h)
  }

  predicate TemporallyInvalid(a: Att, now: int) {
    || (a.expiresAt.Some? && now >= a.expiresAt.value)
    || (a.notBefore.Some? && now < a.notBefore.value)
  }

  // ---------------------------------------------------------------- the guarded recursion

  predicate IsSelfRevoked(a: Att, g: Graph, now: int, busy: set<Hash>)
    decreases g.Keys - busy, 0
  {
    exists r | r in g :: Revokes(g[r], a) && r !in busy && IsLive(g[r], g, now, busy + {r})
  }

  predicate IsTerminallyDead(a: Att, g: Graph, now: int, busy: set<Hash>)
    decreases g.Keys - busy, 1
  {
    TemporallyInvalid(a, now) || IsSelfRevoked(a, g, now, busy)
  }

  predicate IsSuperseded(a: Att, g: Graph, now: int, busy: set<Hash>)
    decreases g.Keys - busy, 0
  {
    exists s | s in g ::
      Succeeds(g[s], a.hash) && s !in busy &&
      (!IsTerminallyDead(g[s], g, now, busy + {s}) || IsSuperseded(g[s], g, now, busy + {s}))
  }

  predicate IsLive(a: Att, g: Graph, now: int, busy: set<Hash>)
    decreases g.Keys - busy, 2
  {
    !IsTerminallyDead(a, g, now, busy) && !IsSuperseded(a, g, now, busy)
  }

  predicate IsAttestationLive(a: Att, g: Graph, now: int) {
    IsLive(a, g, now, {a.hash})
  }

  // ---------------------------------------------------------------- the guard-free recursion

  /** Content addressing: a pointer leads to an entity of smaller rank. */
  ghost predicate Acyclic(g: Graph, rank: Hash -> nat) {
    forall h | h in g ::
      && (g[h].supersedes.Some? ==> rank(g[h].supersedes.value) < rank(h))
      && (g[h].attested.Some? ==> rank(g[h].attested.value) < rank(h))
  }

  ghost function Above(g: Graph, rank: Hash -> nat, h: Hash): set<Hash> {
    set x | x in g && rank(x) > rank(h)
  }

  ghost predicate SelfRevoked(a: Att, g: Graph, rank: Hash -> nat, now: int)
    requires Keyed(g) && Acyclic(g, rank)
    decreases Above(g, rank, a.hash), 0
  {
    exists r | r in g :: Revokes(g[r], a) && (AboveShrinks(g, rank, a.hash, r); Live(g[r], g, rank, now))
  }

  ghost predicate TerminallyDead(a: Att, g: Graph, rank: Hash -> nat, now: int)
    requires Keyed(g) && Acyclic(g, rank)
    decreases Above(g, rank, a.hash), 1
  {
    TemporallyInvalid(a, now) || SelfRevoked(a, g, rank, now)
  }

  ghost predicate Superseded(a: Att, g: Graph, rank: Hash -> nat, now: int)
    requires Keyed(g) && Acyclic(g, rank)
    decreases Above(g, rank, a.hash), 0
  {
    exists s | s in g ::
      Succeeds(g[s], a.hash) &&
      (AboveShrinks(g, rank, a.hash, s); !TerminallyDead(g[s], g, rank, now) || Superseded(g[s], g, rank, now))
  }

  ghost predicate Live(a: Att, g: Graph, rank: Hash -> nat, now: int)
    requires Keyed(g) && Acyclic(g, rank)
    decreases Above(g, rank, a.hash), 2
  {
    !TerminallyDead(a, g, rank, now) && !Superseded(a, g, rank, now)
  }

  lemma AboveShrinks(g: Graph, rank: Hash -> nat, h: Hash, x: Hash)
    requires Keyed(g) && x in g
    ensures rank(h) < rank(x) ==> Above(g, rank, g[x].hash) < Above(g, rank, h)
  {
    if rank(h) < rank(x) {
      assert x in Above(g, rank, h) && x !in Above(g, rank, x);
    }
  }

  /** The hashes in progress are on the way down to `h`, none of them lies above it. */
  ghost predicate OnTheWay(busy: set<Hash>, rank: Hash -> nat, h: Hash) {
    forall x | x in busy :: rank(x) <= rank(h)
  }

  lemma {:induction false} GuardIdleForDeath(a: Att, g: Graph, rank: Hash -> nat, now: int, busy: set<Hash>)
    requires Keyed(g) && Acyclic(g, rank) && OnTheWay(busy, rank, a.hash)
    ensures IsTerminallyDead(a, g, now, busy) == TerminallyDead(a, g, rank, now)
    decreases Above(g, rank, a.hash), 1
  {
    forall r | r in g && Revokes(g[r], a)
      ensures r !in busy && IsLive(g[r], g, now, busy + {r}) == Live(g[r], g, rank, now)
    {
      AboveShrinks(g, rank, a.hash, r);
      GuardIdle(g[r], g, rank, now, busy + {r});
    }
  }

  lemma {:induction false} GuardIdleForSuccession(a: Att, g: Graph, rank: Hash -> nat, now: int, busy: set<Hash>)
    requires Keyed(g) && Acyclic(g, rank) && OnTheWay(busy, rank, a.hash)
    ensures IsSuperseded(a, g, now, busy) == Superseded(a, g, rank, now)
    decreases Above(g, rank, a.hash), 1
  {
    forall s | s in g && Succeeds(g[s], a.hash)
      ensures s !in busy
      ensures IsTerminallyDead(g[s], g, now, busy + {s}) == TerminallyDead(g[s], g, rank, now)
      ensures IsSuperseded(g[s], g, now, busy + {s}) == Superseded(g[s], g, rank, now)
    {
      AboveShrinks(g, rank, a.hash, s);
      GuardIdleForDeath(g[s], g, rank, now, busy + {s});
      GuardIdleForSuccession(g[s], g, rank, now, busy + {s});
    }
  }

  /**
   The guarded functions terminate on any graph; on an acyclic one the in-progress set never
   changes an answer.
   */
  lemma {:induction false} GuardIdle(a: Att, g: Graph, rank: Hash -> nat, now: int, busy: set<Hash>)
    requires Keyed(g) && Acyclic(g, rank) && OnTheWay(busy, rank, a.hash)
    ensures IsLive(a, g, now, busy) == Live(a, g, rank, now)
    decreases Above(g, rank, a.hash), 2
  {
    GuardIdleForDeath(a, g, rank, now, busy);
    GuardIdleForSuccession(a, g, rank, now, busy);
  }

  // ---------------------------------------------------------------- descendants and the closed form

  /** A path of supersedes edges, from predecessor to successor. */
  ghost predicate Path(g: Graph, p: seq<Hash>) {
    forall j | 0 < j < |p| :: p[j] in g && Succeeds(g[p[j]], p[j - 1])
  }

  ghost predicate PathTo(g: Graph, p: seq<Hash>, h: Hash, d: Hash) {
    Path(g, p) && |p| >= 2 && p[0] == h && p[|p| - 1] == d
  }

  /** `d` supersedes `h`, directly or transitively. */
  ghost predicate Descends(g: Graph, h: Hash, d: Hash) {
    exists p :: PathTo(g, p, h, d)
  }

  lemma ChildDescends(g: Graph, h: Hash, c: Hash)
    requires c in g && Succeeds(g[c], h)
    ensures Descends(g, h, c)
  {
    assert PathTo(g, [h, c], h, c);
  }

  lemma DescendsThrough(g: Graph, h: Hash, c: Hash, d: Hash)
    requires c in g && Succeeds(g[c], h) && Descends(g, c, d)
    ensures Descends(g, h, d)
  {
    var p :| PathTo(g, p, c, d);
    assert PathTo(g, [h] + p, h, d);
  }

  lemma DescendsFurther(g: Graph, h: Hash, d: Hash, c: Hash)
    requires Descends(g, h, d) && c in g && Succeeds(g[c], d)
    ensures Descends(g, h, c)
  {
    var p :| PathTo(g, p, h, d);
    var q := p + [c];
    assert PathTo(g, q, h, c);
  }

  lemma {:induction false} DescendsTransitive(g: Graph, a: Hash, b: Hash, p: seq<Hash>, c: Hash)
    requires Descends(g, a, b) && PathTo(g, p, b, c)
    ensures Descends(g, a, c)
    decreases |p|
  {
    if |p| == 2 { DescendsFurther(g, a, b, c); }
    else {
      var q := p[..|p| - 1];
      assert PathTo(g, q, b, p[|p| - 2]);
      DescendsTransitive(g, a, b, q, p[|p| - 2]);
      assert p[|p| - 1] in g && Succeeds(g[p[|p| - 1]], p[|p| - 2]);
      DescendsFurther(g, a, p[|p| - 2], c);
    }
  }

  lemma {:induction false} PathRises(g: Graph, rank: Hash -> nat, p: seq<Hash>, h: Hash, d: Hash)
    requires Keyed(g) && Acyclic(g, rank) && PathTo(g, p, h, d)
    ensures rank(h) < rank(d)
    decreases |p|
  {
    assert p[1] in g && Succeeds(g[p[1]], p[0]);
    if |p| > 2 {
      var q := p[1..];
      assert PathTo(g, q, p[1], d);
      PathRises(g, rank, q, p[1], d);
    }
  }

  lemma {:induction false} SupersededByDescendant(a: Att, g: Graph, rank: Hash -> nat, now: int)
    requires Keyed(g) && Acyclic(g, rank) && Superseded(a, g, rank, now)
    ensures exists d :: Descends(g, a.hash, d) && d in g && !TerminallyDead(g[d], g, rank, now)
    decreases Above(g, rank, a.hash)
  {
    var s :| s in g && Succeeds(g[s], a.hash)
      && (!TerminallyDead(g[s], g, rank, now) || Superseded(g[s], g, rank, now));
    ChildDescends(g, a.hash, s);
    if TerminallyDead(g[s], g, rank, now) {
      AboveShrinks(g, rank, a.hash, s);
      SupersededByDescendant(g[s], g, rank, now);
      var d :| Descends(g, s, d) && d in g && !TerminallyDead(g[d], g, rank, now);
      DescendsThrough(g, a.hash, s, d);
    }
  }

  lemma {:induction false} DescendantSupersedes(a: Att, g: Graph, rank: Hash -> nat, now: int, p: seq<Hash>, d: Hash)
    requires Keyed(g) && Acyclic(g, rank)
    requires PathTo(g, p, a.hash, d) && d in g && !TerminallyDead(g[d], g, rank, now)
    ensures Superseded(a, g, rank, now)
    decreases |p|
  {
    var c := p[1];
    assert c in g && Succeeds(g[c], p[0]);
    if |p| > 2 {
      var q := p[1..];
      DescendantSupersedes(g[c], g, rank, now, q, d);
    }
  }

  /**
   Closed form: an attestation is live exactly when it is not terminally dead and everything that
   supersedes it, directly or transitively, is terminally dead.
   */
  lemma LiveClosedForm(a: Att, g: Graph, rank: Hash -> nat, now: int)
    requires Keyed(g) && Acyclic(g, rank)
    ensures IsAttestationLive(a, g, now) <==>
            && !TerminallyDead(a, g, rank, now)
            && forall d | d in g && Descends(g, a.hash, d) :: TerminallyDead(g[d], g, rank, now)
  {
    GuardIdle(a, g, rank, now, {a.hash});
    if Superseded(a, g, rank, now) { SupersededByDescendant(a, g, rank, now); }
    forall d | d in g && Descends(g, a.hash, d) && !TerminallyDead(g[d], g, rank, now)
      ensures Superseded(a, g, rank, now) {
      var p :| PathTo(g, p, a.hash, d);
      DescendantSupersedes(a, g, rank, now, p, d);
    }
  }

  /** No live attestation supersedes another: the live ones form an antichain. */
  lemma LiveAntichain(a: Att, b: Att, g: Graph, rank: Hash -> nat, now: int)
    requires Keyed(g) && Acyclic(g, rank) && b.hash in g && g[b.hash] == b
    requires IsAttestationLive(a, g, now) && IsAttestationLive(b, g, now)
    ensures !Descends(g, a.hash, b.hash)
  {
    LiveClosedForm(a, g, rank, now);
    LiveClosedForm(b, g, rank, now);
  }

  // ---------------------------------------------------------------- what liveness means on the fields

  /** `now` lies in the window of the attestation: from its not-before on, and before it expires. */
  predicate InWindow(a: Att, now: int) {
    (a.notBefore.Some? ==> a.notBefore.value <= now) && (a.expiresAt.Some? ==> now < a.expiresAt.value)
  }

  /** A live bound revocation that names `a` and has the same attester. */
  ghost predicate RevokedByOwn(a: Att, g: Graph, now: int) {
    exists r | r in g ::
      g[r].revocation && g[r].attested == Some(a.hash) && g[r].attesting == a.attesting &&
      IsAttestationLive(g[r], g, now)
  }

  /** A line of bound attestations, each naming the one before it as superseded, from `h` to `d`. */
  ghost predicate Line(g: Graph, p: seq<Hash>, h: Hash, d: Hash) {
    && |p| >= 2 && p[0] == h && p[|p| - 1] == d
    && forall j | 0 < j < |p| :: p[j] in g && g[p[j]].supersedes == Some(p[j - 1])
  }

  lemma DeadByFields(a: Att, g: Graph, rank: Hash -> nat, now: int)
    requires Keyed(g) && Acyclic(g, rank)
    ensures TerminallyDead(a, g, rank, now) <==> !InWindow(a, now) || RevokedByOwn(a, g, now)
  {
    forall r | r in g ensures IsAttestationLive(g[r], g, now) == Live(g[r], g, rank, now) {
      GuardIdle(g[r], g, rank, now, {r});
    }
  }

  /**
   Liveness in terms of the fields: within the window, not revoked by a live attestation of the same
   attester, and at the root of supersedes lines that all lead to what is out of its window or so revoked.
   */
  lemma LiveByFields(a: Att, g: Graph, rank: Hash -> nat, now: int)
    requires Keyed(g) && Acyclic(g, rank)
    ensures IsAttestationLive(a, g, now) <==>
            && InWindow(a, now) && !RevokedByOwn(a, g, now)
            && forall p, d | d in g && Line(g, p, a.hash, d) :: !InWindow(g[d], now) || RevokedByOwn(g[d], g, now)
  {
    hide RevokedByOwn, InWindow, TerminallyDead, IsAttestationLive;
    DeadByFields(a, g, rank, now);
    LiveClosedForm(a, g, rank, now);
    forall d | d in g
      ensures TerminallyDead(g[d], g, rank, now) <==> !InWindow(g[d], now) || RevokedByOwn(g[d], g, now)
      ensures Descends(g, a.hash, d) <==> exists p :: Line(g, p, a.hash, d)
    {
      DeadByFields(g[d], g, rank, now);
      forall p ensures Line(g, p, a.hash, d) <==> PathTo(g, p, a.hash, d) {}
    }
  }

  /** On an acyclic graph a live bound revocation by the same attester kills. */
  lemma OwnRevocationKills(a: Att, r: Hash, g: Graph, rank: Hash -> nat, now: int)
    requires Keyed(g) && Acyclic(g, rank) && r in g && IsAttestationLive(g[r], g, now)
    requires g[r].revocation && g[r].attested == Some(a.hash) && g[r].attesting == a.attesting
    ensures !IsAttestationLive(a, g, now)
  {
    LiveByFields(a, g, rank, now);
  }

  /** `r` is new, supersedes nothing, and its attester is not that of the attestation it names. */
  predicate Foreign(r: Att, a: Att, g: Graph) {
    && r.hash !in g && r.supersedes.None? && a.hash != r.hash
    && (r.attested == Some(a.hash) ==> r.attesting != a.attesting)
    && (forall h | h in g && r.attested == Some(g[h].hash) :: r.attesting != g[h].attesting)
  }

  lemma {:induction false} ForeignDeath(r: Att, a: Att, g: Graph, now: int, busy: set<Hash>)
    requires Keyed(g) && Foreign(r, a, g) && r.hash !in busy
    ensures IsTerminallyDead(a, g[r.hash := r], now, busy) == IsTerminallyDead(a, g, now, busy)
    decreases g.Keys - busy, 1
  {
    var g' := g[r.hash := r];
    forall h | h in g && Revokes(g[h], a) && h !in busy
      ensures IsLive(g[h], g', now, busy + {h}) == IsLive(g[h], g, now, busy + {h})
    {
      assert g.Keys - (busy + {h}) < g.Keys - busy by { assert h in g.Keys - busy; }
      ForeignChangesNone(r, g[h], g, now, busy + {h});
    }
    forall h ensures h in g' && Revokes(g'[h], a) <==> h in g && Revokes(g[h], a) {}
  }

  lemma {:induction false} ForeignSuccession(r: Att, a: Att, g: Graph, now: int, busy: set<Hash>)
    requires Keyed(g) && Foreign(r, a, g) && r.hash !in busy
    ensures IsSuperseded(a, g[r.hash := r], now, busy) == IsSuperseded(a, g, now, busy)
    decreases g.Keys - busy, 0
  {
    var g' := g[r.hash := r];
    forall h | h in g && Succeeds(g[h], a.hash) && h !in busy
      ensures IsTerminallyDead(g[h], g', now, busy + {h}) == IsTerminallyDead(g[h], g, now, busy + {h})
      ensures IsSuperseded(g[h], g', now, busy + {h}) == IsSuperseded(g[h], g, now, busy + {h})
    {
      assert g.Keys - (busy + {h}) < g.Keys - busy by { assert h in g.Keys - busy; }
      ForeignDeath(r, g[h], g, now, busy + {h});
      ForeignSuccession(r, g[h], g, now, busy + {h});
    }
    forall h ensures h in g' && Succeeds(g'[h], a.hash) <==> h in g && Succeeds(g[h], a.hash) {}
  }

  lemma {:induction false} ForeignChangesNone(r: Att, a: Att, g: Graph, now: int, busy: set<Hash>)
    requires Keyed(g) && Foreign(r, a, g) && r.hash !in busy
    ensures IsLive(a, g[r.hash := r], now, busy) == IsLive(a, g, now, busy)
    decreases g.Keys - busy, 2
  {
    ForeignDeath(r, a, g, now, busy);
    ForeignSuccession(r, a, g, now, busy);
  }

  /**
   Nobody kills another's attestation: binding a new one that supersedes nothing, and whose attester is
   not that of the attestation it names, changes the liveness of no other, on any graph.
   */
  lemma ForeignRevocationIsIdle(r: Att, a: Att, g: Graph, now: int)
    requires Keyed(g) && Foreign(r, a, g)
    ensures IsAttestationLive(a, g[r.hash := r], now) == IsAttestationLive(a, g, now)
  {
    ForeignChangesNone(r, a, g, now, {a.hash});
  }

  // ---------------------------------------------------------------- revocations of revocations

  /**
   `hs[i+1]` is the one bound revocation that names `hs[i]` and has its attester, there is none for the
   last, and every member is in its window and superseded by none.  The rest of the graph is arbitrary.
   */
  predicate RevocationChain(g: Graph, hs: seq<Hash>, now: int) {
    && |hs| > 0
    && (forall i | 0 <= i < |hs| :: hs[i] in g && InWindow(g[hs[i]], now))
    && (forall i, s | 0 <= i < |hs| && s in g :: g[s].supersedes != Some(hs[i]))
    && (forall i, r | 0 <= i < |hs| && r in g ::
          g[r].revocation && g[r].attested == Some(hs[i]) && g[r].attesting == g[hs[i]].attesting
          <==> Follows(hs, i, r))
  }

  /** `r` comes right after position `i`. */
  predicate Follows(hs: seq<Hash>, i: nat, r: Hash) {
    i + 1 < |hs| && hs[i + 1] == r
  }

  lemma {:induction false} ChainParity(g: Graph, rank: Hash -> nat, hs: seq<Hash>, now: int, i: nat)
    requires Keyed(g) && Acyclic(g, rank) && RevocationChain(g, hs, now) && i < |hs|
    ensures Live(g[hs[i]], g, rank, now) <==> (|hs| - 1 - i) % 2 == 0
    decreases |hs| - i
  {
    var a := g[hs[i]];
    assert a.hash == hs[i] && !Superseded(a, g, rank, now);
    if i + 1 < |hs| {
      ChainParity(g, rank, hs, now, i + 1);
      assert Follows(hs, i, hs[i + 1]) && hs[i + 1] in g && Revokes(g[hs[i + 1]], a);
      assert SelfRevoked(a, g, rank, now) <==> Live(g[hs[i + 1]], g, rank, now);
    } else {
      forall r | r in g ensures !Revokes(g[r], a) { assert !Follows(hs, i, r); }
      assert !SelfRevoked(a, g, rank, now) && !TemporallyInvalid(a, now);
    }
  }

  /** Under a linear chain of n self-revocations of revocations the original is live iff n is even. */
  lemma RevocationParity(g: Graph, rank: Hash -> nat, hs: seq<Hash>, now: int)
    requires Keyed(g) && Acyclic(g, rank) && RevocationChain(g, hs, now)
    ensures IsAttestationLive(g[hs[0]], g, now) <==> (|hs| - 1) % 2 == 0
  {
    var a := g[hs[0]];
    ChainParity(g, rank, hs, now, 0);
    assert hs[0] in g && a.hash == hs[0];
    GuardIdle(a, g, rank, now, {a.hash});
  }

  // ---------------------------------------------------------------- the live head

  /** Everything `find_live_head` considers: the start and whatever descends from it. */
  ghost predicate Forward(g: Graph, start: Att, a: Att) {
    a == start || (a.hash in g && g[a.hash] == a && Descends(g, start.hash, a.hash))
  }

  /** The tie-break order: later not-before first, then the larger hash. */
  predicate HeadLeq(a: Att, b: Att) {
    var x := if a.notBefore.Some? then a.notBefore.value else 0;
    var y := if b.notBefore.Some? then b.notBefore.value else 0;
    x < y || (x == y && a.hash <= b.hash)
  }

  /** A head is a live forward attestation, the greatest in tie-break order. */
  ghost predicate IsHead(g: Graph, start: Att, now: int, a: Att) {
    && Forward(g, start, a) && IsAttestationLive(a, g, now)
    && forall b | Forward(g, start, b) && IsAttestationLive(b, g, now) :: HeadLeq(b, a)
  }

  /** When an attestation begins to hold; one that does not say so began at 0. */
  function Begins(a: Att): int {
    match a.notBefore
    case None => 0
    case Some(t) => t
  }

  /** Of the live ones a head began last, and of those that began with it, it has the largest hash. */
  lemma HeadBeganLast(g: Graph, start: Att, now: int, head: Att, b: Att)
    requires IsHead(g, start, now, head) && Forward(g, start, b) && IsAttestationLive(b, g, now)
    ensures Begins(b) <= Begins(head) && (Begins(b) == Begins(head) ==> b.hash <= head.hash)
  {
  }

  lemma {:induction false} ClosedSetHasDescendants(g: Graph, h: Hash, visited: set<Hash>, p: seq<Hash>, d: Hash)
    requires h in visited
    requires forall v, s | v in visited && s in g && Succeeds(g[s], v) :: s in visited
    requires PathTo(g, p, h, d)
    ensures d in visited
    decreases |p|
  {
    assert p[|p| - 1] in g && Succeeds(g[p[|p| - 1]], p[|p| - 2]);
    if |p| > 2 {
      var q := p[..|p| - 1];
      assert PathTo(g, q, h, p[|p| - 2]);
      ClosedSetHasDescendants(g, h, visited, q, p[|p| - 2]);
    }
  }

  /** The successors of `h` not yet visited, each once. */
  method Expand(h: Hash, g: Graph, visited: set<Hash>) returns (found: seq<Att>, visited': set<Hash>)
    requires Keyed(g)
    ensures forall a | a in found :: a.hash in g && g[a.hash] == a && Succeeds(a, h) && a.hash !in visited
    ensures forall s | s in g && Succeeds(g[s], h) :: s in visited'
    ensures forall v :: v in visited' <==> v in visited || (v in g && g[v] in found)
    ensures found == [] ==> visited' == visited
    ensures found != [] ==> g.Keys - visited' < g.Keys - visited
  {
    found, visited' := [], visited;
    var todo := set s | s in g && Succeeds(g[s], h);
    while todo != {}
      invariant todo <= set s | s in g && Succeeds(g[s], h)
      invariant forall a | a in found :: a.hash in g && g[a.hash] == a && Succeeds(a, h) && a.hash !in visited
      invariant forall s | s in g && Succeeds(g[s], h) && s !in todo :: s in visited'
      invariant forall v :: v in visited' <==> v in visited || (v in g && g[v] in found)
      invariant found == [] ==> visited' == visited
    {
      var s :| s in todo;
      todo := todo - {s};
      if s !in visited' {
        visited' := visited' + {s};
        found := found + [g[s]];
      }
    }
    if found != [] {
      assert found[0].hash in g.Keys - visited && found[0].hash !in g.Keys - visited';
    }
  }

  /** The breadth-first walk forward over supersedes edges. */
  method ForwardClosure(start: Att, g: Graph) returns (candidates: seq<Att>)
    requires Keyed(g) && (start.hash in g ==> g[start.hash] == start)
    ensures forall a :: a in candidates <==> Forward(g, start, a)
  {
    candidates := [start];
    var visited, queue := {start.hash}, [start];
    while queue != []
      invariant start in candidates && forall a | a in candidates :: a.hash in visited && Forward(g, start, a)
      invariant forall v | v in visited :: v == start.hash || (v in g && g[v] in candidates)
      invariant forall a | a in queue :: a in candidates
      invariant forall v, s | v in visited && s in g && Succeeds(g[s], v) ::
        s in visited || exists a :: a in queue && a.hash == v
      decreases g.Keys - visited, |queue|
    {
      var current := queue[0];
      ghost var queue0, visited0 := queue, visited;
      queue := queue[1..];
      var found;
      found, visited := Expand(current.hash, g, visited);
      forall a | a in found ensures Forward(g, start, a) {
        if current == start { ChildDescends(g, start.hash, a.hash); }
        else { DescendsFurther(g, start.hash, current.hash, a.hash); }
      }
      candidates, queue := candidates + found, queue + found;
      forall v, s | v in visited && s in g && Succeeds(g[s], v) && s !in visited
        ensures exists a :: a in queue && a.hash == v
      {
        if v in visited0 {
          var a :| a in queue0 && a.hash == v;
          assert a in queue;
        } else {
          assert g[v] in found && g[v] in queue;
        }
      }
    }
    forall a | Forward(g, start, a) ensures a in candidates {
      if a != start {
        var p :| PathTo(g, p, start.hash, a.hash);
        ClosedSetHasDescendants(g, start.hash, visited, p, a.hash);
      }
    }
  }

  method FindLiveHead(start: Att, g: Graph, now: int) returns (head: Option<Att>)
    requires Keyed(g) && (start.hash in g ==> g[start.hash] == start)
    ensures head.Some? ==> IsHead(g, start, now, head.value)
    ensures head.None? ==> forall a | Forward(g, start, a) :: !IsAttestationLive(a, g, now)
  {
    var candidates := ForwardClosure(start, g);
    head := None;
    for i := 0 to |candidates|
      invariant head.None? ==> forall j | 0 <= j < i :: !IsAttestationLive(candidates[j], g, now)
      invariant head.Some? ==> head.value in candidates && IsAttestationLive(head.value, g, now)
      invariant head.Some? ==> forall j | 0 <= j < i && IsAttestationLive(candidates[j], g, now) ::
        HeadLeq(candidates[j], head.value)
    {
      var c := candidates[i];
      if IsAttestationLive(c, g, now) && (head.None? || !HeadLeq(c, head.value)) { head := Some(c); }
    }
    forall a | Forward(g, start, a) ensures exists j :: 0 <= j < |candidates| && candidates[j] == a {
      assert a in candidates;
    }
  }

  /** Among finitely many ranked hashes one is highest. */
  lemma {:induction false} Highest(s: set<Hash>, rank: Hash -> nat) returns (top: Hash)
    requires s != {}
    ensures top in s && forall x | x in s :: rank(x) <= rank(top)
    decreases |s|
  {
    var x :| x in s;
    top := x;
    if s != {x} {
      var rest := s - {x};
      assert s == rest + {x};
      var t := Highest(rest, rank);
      if rank(x) < rank(t) { top := t; }
    }
  }

  lemma {:induction false} DescendsRises(g: Graph, rank: Hash -> nat, h: Hash, d: Hash)
    requires Keyed(g) && Acyclic(g, rank) && Descends(g, h, d)
    ensures rank(h) < rank(d)
  {
    var p :| PathTo(g, p, h, d);
    PathRises(g, rank, p, h, d);
  }

  /** There is no live head exactly when the whole forward closure of the start is terminally dead. */
  lemma NoHeadIffAllDead(start: Att, g: Graph, rank: Hash -> nat, now: int)
    requires Keyed(g) && Acyclic(g, rank) && (start.hash in g ==> g[start.hash] == start)
    ensures (forall a | Forward(g, start, a) :: !IsAttestationLive(a, g, now)) <==>
            (forall a | Forward(g, start, a) :: TerminallyDead(a, g, rank, now))
  {
    forall a | Forward(g, start, a) && IsAttestationLive(a, g, now) ensures !TerminallyDead(a, g, rank, now) {
      LiveClosedForm(a, g, rank, now);
    }
    if exists a :: Forward(g, start, a) && !TerminallyDead(a, g, rank, now) {
      var undead := set d | d in g && Descends(g, start.hash, d) && !TerminallyDead(g[d], g, rank, now);
      if undead == {} {
        forall a | Forward(g, start, a) && a != start ensures TerminallyDead(a, g, rank, now) {
          assert a.hash !in undead;
        }
        assert Forward(g, start, start) && !TerminallyDead(start, g, rank, now);
        forall d | d in g && Descends(g, start.hash, d) ensures TerminallyDead(g[d], g, rank, now) {
          assert d !in undead;
        }
        LiveClosedForm(start, g, rank, now);
        assert IsAttestationLive(start, g, now);
      } else {
        var top := Highest(undead, rank);
        forall d | d in g && Descends(g, top, d) ensures TerminallyDead(g[d], g, rank, now) {
          var p :| PathTo(g, p, top, d);
          DescendsTransitive(g, start.hash, top, p, d);
          DescendsRises(g, rank, top, d);
        }
        LiveClosedForm(g[top], g, rank, now);
        assert Forward(g, start, g[top]) && IsAttestationLive(g[top], g, now);
      }
    }
  }

  /** A live attestation is its own head, and the only one. */
  lemma HeadOfLive(a: Att, g: Graph, rank: Hash -> nat, now: int, head: Att)
    requires Keyed(g) && Acyclic(g, rank) && (a.hash in g ==> g[a.hash] == a)
    requires IsAttestationLive(a, g, now)
    ensures IsHead(g, a, now, head) <==> head == a
  {
    LiveClosedForm(a, g, rank, now);
    forall b | Forward(g, a, b) && IsAttestationLive(b, g, now) ensures b == a {
      LiveClosedForm(b, g, rank, now);
    }
  }

  /** Lowest hash first among the live attestations that target `peer`. */
  ghost predicate Authorizes(g: Graph, now: int, peer: Hash, a: Att) {
    && a.hash in g && g[a.hash] == a && a.attested == Some(peer) && IsAttestationLive(a, g, now)
    && forall h | h in g && g[h].attested == Some(peer) && IsAttestationLive(g[h], g, now) :: a.hash <= h
  }

  /**
   The default authorizer resolves each live candidate to its head and takes the lowest hash; on an
   acyclic graph that is the lowest live attestation targeting the peer.
   */
  method DefaultFindAuthorizing(peer: Hash, g: Graph, ghost rank: Hash -> nat, now: int) returns (result: Option<Att>)
    requires Keyed(g) && Acyclic(g, rank)
    ensures result.Some? ==> Authorizes(g, now, peer, result.value)
    ensures result.None? ==> forall h | h in g && g[h].attested == Some(peer) :: !IsAttestationLive(g[h], g, now)
  {
    var todo := set h | h in g && g[h].attested == Some(peer) && IsAttestationLive(g[h], g, now);
    var heads: seq<Att>, seen: set<Hash> := [], {};
    ghost var live := todo;
    while todo != {}
      invariant todo <= live
      invariant forall a :: a in heads <==> (a.hash in live && a.hash !in todo && g[a.hash] == a)
      invariant forall h :: h in seen <==> (h in live && h !in todo)
    {
      var h :| h in todo;
      todo := todo - {h};
      var head := FindLiveHead(g[h], g, now);
      assert Forward(g, g[h], g[h]);
      HeadOfLive(g[h], g, rank, now, g[h]);
      if head.None? { continue; }
      HeadOfLive(g[h], g, rank, now, head.value);
      if head.value.hash in seen { continue; }
      seen := seen + {head.value.hash};
      heads := heads + [head.value];
    }
    assert forall h | h in g && g[h].attested == Some(peer) && IsAttestationLive(g[h], g, now) :: g[h] in heads;
    if heads == [] { return None; }
    var best := heads[0];
    for i := 1 to |heads|
      invariant best in heads && forall j | 0 <= j < i :: best.hash <= heads[j].hash
    {
      if heads[i].hash < best.hash { best := heads[i]; }
    }
    return Some(best);
  }
}
