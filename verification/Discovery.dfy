/**
 The discovery live index: what is known of each backend's candidates, kept in step with the tree
 slots that subscribers watch, under a ceiling, refreshes, departures, aging out and admission.
 */
module Discovery {
  import opened Values

  /** The hash of an identity claim names its peer; any other hash may be advertised too. */
  datatype Hint = ClaimOf(peer: string) | Unrelated(n: nat)

  /** A stored entity; it stands for its own hash, so references are acyclic and injective. */
  datatype Stored =
    | Candidate(backend: string, observedAt: int, endpoint: string,
                peer: Option<string>, hint: Option<Hint>, supersedes: Option<Stored>)
    | OtherEntity(n: nat)

  type Hash = Stored

  /** What a backend reports, with the clock reading taken when it is wrapped. */
  datatype Observation = Observation(
    id: string, endpoint: string, peerHint: Option<string>, hint: Option<Hint>,
    ttl: Option<int>, observedAt: Option<int>, clock: int)

  datatype Tracked = Tracked(hash: Hash, lastSeen: int, ttl: Option<int>)

  type Live = map<string, Tracked>

  /** `fits` is the payload bound, `decodes` whether a peer id is well formed. */
  datatype Config = Config(ceiling: int, graceMultiplier: int, fits: Stored -> bool, decodes: string -> bool)

  // ---------------------------------------------------------------- one observation

  function SeenAt(o: Observation): int {
    if o.observedAt.Some? then o.observedAt.value else o.clock
  }

  function HintOf(cfg: Config, o: Observation): Option<Hint> {
    if o.hint.None? && o.peerHint.Some? && o.peerHint.value != "" && cfg.decodes(o.peerHint.value)
    then Some(ClaimOf(o.peerHint.value)) else o.hint
  }

  function CandidateOf(cfg: Config, backend: string, o: Observation): Hash {
    Candidate(backend, SeenAt(o), o.endpoint, o.peerHint, HintOf(cfg, o), None)
  }

  predicate Fits(cfg: Config, backend: string, o: Observation) {
    cfg.fits(CandidateOf(cfg, backend, o))
  }

  function TrackedOf(cfg: Config, backend: string, o: Observation): Tracked {
    Tracked(CandidateOf(cfg, backend, o), SeenAt(o), o.ttl)
  }

  predicate Full(cfg: Config, live: Live) {
    |live| >= cfg.ceiling
  }

  /** A new observation that meets a full index. */
  predicate Turned(cfg: Config, live: Live, o: Observation) {
    o.id !in live && Full(cfg, live)
  }

  predicate Written(cfg: Config, backend: string, live: Live, o: Observation) {
    Fits(cfg, backend, o) && !Turned(cfg, live, o)
  }

  // ---------------------------------------------------------------- a sequence of observations

  /** `turned`: some new observation met a full index. */
  datatype Absorbed = Absorbed(live: Live, hashes: seq<Hash>, turned: bool)

  function Absorb(cfg: Config, backend: string, live: Live, seen: seq<Observation>): Absorbed
    decreases |seen|
  {
    if seen == [] then Absorbed(live, [], false)
    else
      var before := Absorb(cfg, backend, live, seen[..|seen| - 1]);
      var o := seen[|seen| - 1];
      if Written(cfg, backend, before.live, o)
      then Absorbed(before.live[o.id := TrackedOf(cfg, backend, o)],
                    before.hashes + [CandidateOf(cfg, backend, o)], before.turned)
      else before.(turned := before.turned || Turned(cfg, before.live, o))
  }

  lemma AbsorbNothing(cfg: Config, backend: string, live: Live)
    ensures Absorb(cfg, backend, live, []) == Absorbed(live, [], false)
  {
  }

  lemma AbsorbStep(cfg: Config, backend: string, live: Live, seen: seq<Observation>, o: Observation)
    ensures var before, after := Absorb(cfg, backend, live, seen), Absorb(cfg, backend, live, seen + [o]);
            after == if Written(cfg, backend, before.live, o)
                     then Absorbed(before.live[o.id := TrackedOf(cfg, backend, o)],
                                   before.hashes + [CandidateOf(cfg, backend, o)], before.turned)
                     else before.(turned := before.turned || Turned(cfg, before.live, o))
  {
    assert (seen + [o])[..|seen|] == seen;
  }

  /** The hashes of the observations within the payload bound, in order. */
  function FittingHashes(cfg: Config, backend: string, seen: seq<Observation>): seq<Hash>
    decreases |seen|
  {
    if seen == [] then []
    else
      var before := FittingHashes(cfg, backend, seen[..|seen| - 1]);
      var o := seen[|seen| - 1];
      if Fits(cfg, backend, o) then before + [CandidateOf(cfg, backend, o)] else before
  }

  /** Observation `i` is the last within the payload bound for its candidate id. */
  predicate LastFor(cfg: Config, backend: string, seen: seq<Observation>, i: nat)
    requires i < |seen|
  {
    Fits(cfg, backend, seen[i]) &&
    forall j | i < j < |seen| && Fits(cfg, backend, seen[j]) :: seen[j].id != seen[i].id
  }

  /** Some observation within the payload bound is for candidate `c`. */
  predicate Observed(cfg: Config, backend: string, seen: seq<Observation>, c: string) {
    exists i :: 0 <= i < |seen| && Fits(cfg, backend, seen[i]) && seen[i].id == c
  }

  predicate HoldsLast(cfg: Config, backend: string, seen: seq<Observation>, after: Live) {
    forall i | 0 <= i < |seen| && LastFor(cfg, backend, seen, i) ::
      seen[i].id in after && after[seen[i].id] == TrackedOf(cfg, backend, seen[i])
  }

  predicate KeepsOthers(cfg: Config, backend: string, live: Live, seen: seq<Observation>, after: Live) {
    && (forall c | c in live :: c in after)
    && (forall c | c in after && !Observed(cfg, backend, seen, c) :: c in live && after[c] == live[c])
  }

  /**
   Every observation within the payload bound is written: the hashes are theirs, in order, each id
   holds its last such observation, and no other id is touched.
   */
  predicate Complete(cfg: Config, backend: string, live: Live, seen: seq<Observation>, after: Live, hashes: seq<Hash>) {
    && hashes == FittingHashes(cfg, backend, seen)
    && HoldsLast(cfg, backend, seen, after)
    && KeepsOthers(cfg, backend, live, seen, after)
  }

  function WriteIfFits(cfg: Config, backend: string, after: Live, o: Observation): Live {
    if Fits(cfg, backend, o) then after[o.id := TrackedOf(cfg, backend, o)] else after
  }

  lemma HoldsLastStep(cfg: Config, backend: string, seen: seq<Observation>, o: Observation, after: Live)
    requires HoldsLast(cfg, backend, seen, after)
    ensures HoldsLast(cfg, backend, seen + [o], WriteIfFits(cfg, backend, after, o))
  {
    hide Fits, TrackedOf;
    var all := seen + [o];
    forall i | 0 <= i < |all| && LastFor(cfg, backend, all, i)
      ensures all[i].id in WriteIfFits(cfg, backend, after, o)
      ensures WriteIfFits(cfg, backend, after, o)[all[i].id] == TrackedOf(cfg, backend, all[i])
    {
      if i < |seen| {
        assert all[|seen|] == o;
        forall j | i < j < |seen| && Fits(cfg, backend, seen[j]) ensures seen[j].id != seen[i].id {
          assert all[j] == seen[j];
        }
        assert LastFor(cfg, backend, seen, i);
      }
    }
  }

  lemma ObservedStep(cfg: Config, backend: string, seen: seq<Observation>, o: Observation, c: string)
    ensures Observed(cfg, backend, seen + [o], c) <==>
            Observed(cfg, backend, seen, c) || (Fits(cfg, backend, o) && o.id == c)
  {
    hide Fits;
    var all := seen + [o];
    if Observed(cfg, backend, seen, c) {
      var i :| 0 <= i < |seen| && Fits(cfg, backend, seen[i]) && seen[i].id == c;
      assert all[i] == seen[i];
    }
    assert all[|seen|] == o;
  }

  lemma KeepsOthersStep(cfg: Config, backend: string, live: Live, seen: seq<Observation>, o: Observation, after: Live)
    requires KeepsOthers(cfg, backend, live, seen, after)
    ensures KeepsOthers(cfg, backend, live, seen + [o], WriteIfFits(cfg, backend, after, o))
  {
    hide Fits, TrackedOf, Observed;
    forall c ensures Observed(cfg, backend, seen + [o], c) <==>
                     Observed(cfg, backend, seen, c) || (Fits(cfg, backend, o) && o.id == c) {
      ObservedStep(cfg, backend, seen, o, c);
    }
  }

  /** Completeness grows with one more observation, written when it is within the payload bound. */
  lemma CompleteStep(cfg: Config, backend: string, live: Live, seen: seq<Observation>, o: Observation, after: Live,
      hashes: seq<Hash>)
    requires Complete(cfg, backend, live, seen, after, hashes)
    ensures Complete(cfg, backend, live, seen + [o], WriteIfFits(cfg, backend, after, o),
                     if Fits(cfg, backend, o) then hashes + [CandidateOf(cfg, backend, o)] else hashes)
  {
    hide Fits, TrackedOf, CandidateOf, HoldsLast, KeepsOthers, WriteIfFits;
    assert (seen + [o])[..|seen|] == seen;
    HoldsLastStep(cfg, backend, seen, o, after);
    KeepsOthersStep(cfg, backend, live, seen, o, after);
  }

  /** When no observation met a full index, nothing within the payload bound was lost. */
  lemma {:induction false} UnturnedIsComplete(cfg: Config, backend: string, live: Live, seen: seq<Observation>)
    requires !Absorb(cfg, backend, live, seen).turned
    ensures var r := Absorb(cfg, backend, live, seen); Complete(cfg, backend, live, seen, r.live, r.hashes)
    decreases |seen|
  {
    hide Fits, TrackedOf, CandidateOf;
    if seen == [] {
    } else {
      hide Absorb, Complete, Turned;
      var front, o := seen[..|seen| - 1], seen[|seen| - 1];
      assert front + [o] == seen;
      AbsorbStep(cfg, backend, live, front, o);
      UnturnedIsComplete(cfg, backend, live, front);
      var r := Absorb(cfg, backend, live, front);
      CompleteStep(cfg, backend, live, front, o, r.live, r.hashes);
    }
  }

  lemma {:induction false} AbsorbedCount(cfg: Config, backend: string, live: Live, seen: seq<Observation>)
    ensures |Absorb(cfg, backend, live, seen).hashes| <= |seen|
    decreases |seen|
  {
    if seen != [] { AbsorbedCount(cfg, backend, live, seen[..|seen| - 1]); }
  }

  /** The index never grows past the ceiling. */
  predicate Bounded(cfg: Config, live: Live) {
    |live| <= if cfg.ceiling > 0 then cfg.ceiling else 0
  }

  lemma WrittenStaysBounded(cfg: Config, live: Live, id: string, t: Tracked)
    requires Bounded(cfg, live) && (id in live || !Full(cfg, live))
    ensures Bounded(cfg, live[id := t])
  {
    assert live[id := t].Keys == live.Keys + {id};
    assert |live[id := t]| == |live[id := t].Keys| && |live| == |live.Keys|;
    if id in live { assert live.Keys + {id} == live.Keys; }
  }

  // ---------------------------------------------------------------- aging

  /** Past its grace window; a one-shot candidate has none. */
  predicate Stale(cfg: Config, t: Tracked, now: int) {
    t.ttl.Some? && now - t.lastSeen > cfg.graceMultiplier * t.ttl.value
  }

  function Fresh(cfg: Config, live: Live, now: int): Live {
    map c | c in live && !Stale(cfg, live[c], now) :: live[c]
  }

  /**
   How long an observation lasts: a reap keeps its candidate exactly when it has no TTL or the time is not
   past its sighting by more than the grace multiple of the TTL.  The sighting is what the backend reports,
   or else the time at which the report came.
   */
  lemma ObservationLasts(cfg: Config, backend: string, live: Live, o: Observation, now: int)
    ensures var seen := if o.observedAt.Some? then o.observedAt.value else o.clock;
            o.id in Fresh(cfg, live[o.id := TrackedOf(cfg, backend, o)], now) <==>
            o.ttl.None? || now <= seen + cfg.graceMultiplier * o.ttl.value
  {
  }

  /**
   What is written for an observation: its own fields, superseding nothing.  A hint it brings is kept; one
   that it does not bring is made from a peer id that is not empty and well formed.
   */
  lemma ObservationWritten(cfg: Config, backend: string, o: Observation)
    ensures var h := TrackedOf(cfg, backend, o).hash;
            && h == CandidateOf(cfg, backend, o) && h.Candidate?
            && h.backend == backend && h.endpoint == o.endpoint && h.peer == o.peerHint && h.supersedes.None?
            && (o.observedAt.Some? ==> h.observedAt == o.observedAt.value)
            && (o.observedAt.None? ==> h.observedAt == o.clock)
            && (o.hint.Some? ==> h.hint == o.hint)
            && (o.hint.None? ==>
                  forall claim :: h.hint == Some(claim) <==>
                                  o.peerHint.Some? && o.peerHint.value != "" && cfg.decodes(o.peerHint.value) &&
                                  claim == ClaimOf(o.peerHint.value))
  {
  }

  // ---------------------------------------------------------------- admission

  /** The advertised hint is checked against the identity the peer turned out to have. */
  predicate HintVerifies(cfg: Config, advertised: Option<Hint>, actual: string) {
    advertised.Some? ==> cfg.decodes(actual) && advertised.value == ClaimOf(actual)
  }

  function Successor(c: Hash, actual: string, now: int): Hash
    requires c.Candidate?
  {
    Candidate(c.backend, now, c.endpoint, Some(actual), Some(ClaimOf(actual)), Some(c))
  }

  datatype Admission = Admitted(successor: Hash) | NotFound | HintMismatch | Raised

  function Admit(cfg: Config, store: set<Hash>, h: Hash, actual: string, now: int): Admission {
    if h !in store || !h.Candidate? then NotFound
    else if !HintVerifies(cfg, h.hint, actual) then HintMismatch
    else if !cfg.decodes(actual) then Raised
    else Admitted(Successor(h, actual, now))
  }

  /**
   Admission fails closed and pins: a candidate is admitted as a peer exactly when it is known, the
   peer id is well formed and no other identity was advertised; the successor it makes can then be
   admitted again as that peer and as no other.
   */
  lemma AdmissionPins(cfg: Config, store: set<Hash>, h: Hash, actual: string, other: string, now: int, later: int)
    ensures Admit(cfg, store, h, actual, now).Admitted? <==>
            && h in store && h.Candidate? && cfg.decodes(actual)
            && (h.hint.None? || h.hint == Some(ClaimOf(actual)))
    ensures var r := Admit(cfg, store, h, actual, now);
            r.Admitted? && r.successor in store ==>
              (Admit(cfg, store, r.successor, other, later).Admitted? <==> other == actual)
    ensures var r := Admit(cfg, store, h, actual, now);
            r.Admitted? ==> r.successor.Candidate? && r.successor.peer == Some(actual) &&
                            r.successor.hint == Some(ClaimOf(actual)) && r.successor.observedAt == now
  {
  }

  /** How many admissions stand behind a candidate. */
  function ChainLength(h: Hash): nat {
    if h.Candidate? && h.supersedes.Some? then 1 + ChainLength(h.supersedes.value) else 0
  }

  /** The first observation a chain of admissions goes back to. */
  function Origin(h: Hash): Hash {
    if h.Candidate? && h.supersedes.Some? then Origin(h.supersedes.value) else h
  }

  /** A run of admissions, each of the successor the last one made. */
  function AdmitChain(h: Hash, actuals: seq<(string, int)>): Hash
    requires h.Candidate?
    decreases |actuals|
  {
    if actuals == [] then h else AdmitChain(Successor(h, actuals[0].0, actuals[0].1), actuals[1..])
  }

  /** Every successor leads back to the observation it came from, one step an admission. */
  lemma {:induction false} ChainLeadsBack(h: Hash, actuals: seq<(string, int)>)
    requires h.Candidate?
    ensures var s := AdmitChain(h, actuals);
            && ChainLength(s) == ChainLength(h) + |actuals| && Origin(s) == Origin(h)
            && s.Candidate? && s.backend == h.backend && s.endpoint == h.endpoint
    decreases |actuals|
  {
    if actuals != [] { ChainLeadsBack(Successor(h, actuals[0].0, actuals[0].1), actuals[1..]); }
  }

  // ---------------------------------------------------------------- the index and its slots

  const CANDIDATE_PREFIX := "system/discovery/candidate/"

  type Index = map<string, Live>
  type Slots = map<string, Hash>

  function Uri(backend: string, id: string): string {
    CANDIDATE_PREFIX + backend + "/" + id
  }

  /** No name goes on, past a separator, to another: `b/...` is not a name besides `b`. */
  predicate NamesOk(names: set<string>) {
    forall b, b' | b in names && b' in names && b != b' :: !(b + "/" <= b')
  }

  /** The slots of all candidates of these backends differ. */
  ghost predicate SlotsDistinct(names: set<string>) {
    forall b, c, b', c' | b in names && b' in names && Uri(b, c) == Uri(b', c') :: b == b' && c == c'
  }

  lemma NameGoesOn(b: string, c: string, b': string, c': string)
    requires b + "/" + c == b' + "/" + c' && |b| < |b'|
    ensures b + "/" <= b'
  {
    var u := b + "/" + c;
    assert u[..|b| + 1] == b + "/" && (b' + "/" + c')[..|b'|] == b';
    assert b'[..|b| + 1] == u[..|b'|][..|b| + 1] == u[..|b| + 1];
  }

  /** Slots of different candidates differ. */
  lemma UriInjective(names: set<string>, b: string, c: string, b': string, c': string)
    requires NamesOk(names) && b in names && b' in names && Uri(b, c) == Uri(b', c')
    ensures b == b' && c == c'
  {
    var n := |CANDIDATE_PREFIX|;
    var u, u' := b + "/" + c, b' + "/" + c';
    assert u == Uri(b, c)[n..] && u' == Uri(b', c')[n..];
    if |b| < |b'| { NameGoesOn(b, c, b', c'); }
    if |b'| < |b| { NameGoesOn(b', c', b, c); }
    assert b == u[..|b|] && b' == u'[..|b'|];
    assert c == u[|b| + 1..] && c' == u'[|b'| + 1..];
  }

  /** A name that goes on to another shares slots with it. */
  lemma SharedSlot(b: string, b': string, d: string)
    requires b + "/" <= b'
    ensures Uri(b, b'[|b| + 1..] + "/" + d) == Uri(b', d)
  {
    var rest := b'[|b| + 1..];
    assert b' == b + "/" + rest;
    assert b + "/" + (rest + "/" + d) == b' + "/" + d;
    assert Uri(b, rest + "/" + d) == CANDIDATE_PREFIX + (b + "/" + (rest + "/" + d));
    assert Uri(b', d) == CANDIDATE_PREFIX + (b' + "/" + d);
  }

  /** The condition on the registered names is exact: the slots are all distinct if and only if it holds. */
  lemma SlotsDistinctIffNamesOk(names: set<string>)
    ensures SlotsDistinct(names) <==> NamesOk(names)
  {
    hide Uri;
    if NamesOk(names) {
      forall b, c, b', c' | b in names && b' in names && Uri(b, c) == Uri(b', c') ensures b == b' && c == c' {
        UriInjective(names, b, c, b', c');
      }
    } else {
      var b, b' :| b in names && b' in names && b != b' && b + "/" <= b';
      SharedSlot(b, b', "");
      assert Uri(b, b'[|b| + 1..] + "/" + "") == Uri(b', "");
    }
  }

  function LiveOf(index: Index, backend: string): Live {
    if backend in index then index[backend] else map[]
  }

  predicate IsLive(index: Index, b: string, c: string) {
    b in index && c in index[b]
  }

  function HashAt(index: Index, b: string, c: string): Hash
    requires IsLive(index, b, c)
  {
    index[b][c].hash
  }

  ghost predicate Owned(index: Index, u: string) {
    exists b, c :: IsLive(index, b, c) && u == Uri(b, c)
  }

  /** The index and the slots name the same candidates with the same hashes. */
  ghost predicate Agree(index: Index, slots: Slots) {
    && (forall b, c | IsLive(index, b, c) :: Uri(b, c) in slots && slots[Uri(b, c)] == HashAt(index, b, c))
    && (forall u | u in slots :: Owned(index, u))
  }

  /** The backend is known, or its name fits in with the known ones; this can be checked at registration. */
  predicate Registrable(index: Index, b: string) {
    NamesOk(index.Keys + {b})
  }

  lemma RegistrableLater(index: Index, index': Index, b: string)
    requires Registrable(index, b) && index'.Keys == index.Keys + {b}
    ensures Registrable(index', b) && NamesOk(index'.Keys)
  {
    assert index'.Keys + {b} == index.Keys + {b};
  }

  lemma KnownIsRegistrable(index: Index, b: string)
    requires NamesOk(index.Keys) && b in index
    ensures Registrable(index, b)
  {
    assert index.Keys + {b} == index.Keys;
  }

  function Write(index: Index, b: string, c: string, t: Tracked): Index {
    index[b := LiveOf(index, b)[c := t]]
  }

  function Drop(index: Index, b: string, c: string): Index {
    index[b := LiveOf(index, b) - {c}]
  }

  lemma WriteIs(index: Index, b: string, c: string, t: Tracked, b': string, c': string)
    ensures var index' := Write(index, b, c, t);
            && (IsLive(index', b', c') <==> (b' == b && c' == c) || IsLive(index, b', c'))
            && (IsLive(index', b', c') ==>
                  HashAt(index', b', c') == if b' == b && c' == c then t.hash else HashAt(index, b', c'))
  {
  }

  lemma DropIs(index: Index, b: string, c: string, b': string, c': string)
    ensures var index' := Drop(index, b, c);
            && (IsLive(index', b', c') <==> !(b' == b && c' == c) && IsLive(index, b', c'))
            && (IsLive(index', b', c') ==> HashAt(index', b', c') == HashAt(index, b', c'))
  {
  }

  lemma OwnedStays(index: Index, index': Index, u: string, lost: string)
    requires Owned(index, u) && u != lost
    requires forall b, c | IsLive(index, b, c) :: IsLive(index', b, c) || Uri(b, c) == lost
    ensures Owned(index', u)
  {
    hide Uri, IsLive;
    var b, c :| IsLive(index, b, c) && u == Uri(b, c);
    assert IsLive(index', b, c);
  }

  lemma LiveIsKnown(index: Index, b: string, c: string)
    requires IsLive(index, b, c)
    ensures b in index.Keys
  {
  }

  lemma AgreeWrite(index: Index, slots: Slots, b: string, c: string, t: Tracked)
    requires Agree(index, slots) && Registrable(index, b)
    ensures Agree(Write(index, b, c, t), slots[Uri(b, c) := t.hash])
  {
    hide Uri, Owned, IsLive, HashAt, Write, NamesOk;
    var index' := Write(index, b, c, t);
    var slots' := slots[Uri(b, c) := t.hash];
    forall b', c' ensures IsLive(index', b', c') <==> (b' == b && c' == c) || IsLive(index, b', c') {
      WriteIs(index, b, c, t, b', c');
    }
    forall b', c' | IsLive(index', b', c')
      ensures Uri(b', c') in slots' && slots'[Uri(b', c')] == HashAt(index', b', c')
    {
      WriteIs(index, b, c, t, b', c');
      if IsLive(index, b', c') { LiveIsKnown(index, b', c'); }
      if Uri(b', c') == Uri(b, c) { UriInjective(index.Keys + {b}, b, c, b', c'); }
    }
    forall u | u in slots' ensures Owned(index', u) {
      if u == Uri(b, c) { OwnedBy(index', b, c); } else { OwnedStays(index, index', u, Uri(b, c)); }
    }
  }

  lemma OwnedBy(index: Index, b: string, c: string)
    requires IsLive(index, b, c)
    ensures Owned(index, Uri(b, c))
  {
  }

  lemma AgreeDrop(index: Index, slots: Slots, b: string, c: string)
    requires Agree(index, slots) && NamesOk(index.Keys) && IsLive(index, b, c)
    ensures Agree(Drop(index, b, c), slots - {Uri(b, c)})
  {
    hide Uri, Owned, IsLive, HashAt, Drop, NamesOk;
    var index' := Drop(index, b, c);
    var slots' := slots - {Uri(b, c)};
    forall b', c' ensures IsLive(index', b', c') <==> !(b' == b && c' == c) && IsLive(index, b', c') {
      DropIs(index, b, c, b', c');
    }
    forall b', c' | IsLive(index', b', c')
      ensures Uri(b', c') in slots' && slots'[Uri(b', c')] == HashAt(index', b', c')
    {
      DropIs(index, b, c, b', c');
      LiveIsKnown(index, b, c);
      LiveIsKnown(index, b', c');
      if Uri(b', c') == Uri(b, c) { UriInjective(index.Keys, b, c, b', c'); }
    }
    forall u | u in slots' ensures Owned(index', u) { OwnedStays(index, index', u, Uri(b, c)); }
  }

  /** Agreement leaves no freedom: a slot is there exactly for a live candidate, and the index fixes them all. */
  lemma SlotsMirrorIndex(index: Index, slots: Slots, slots': Slots, b: string, c: string)
    requires Agree(index, slots) && Registrable(index, b)
    ensures Uri(b, c) in slots <==> IsLive(index, b, c)
    ensures Agree(index, slots') ==> slots' == slots
  {
    hide Uri;
    if Uri(b, c) in slots {
      var b', c' :| IsLive(index, b', c') && Uri(b, c) == Uri(b', c');
      LiveIsKnown(index, b', c');
      UriInjective(index.Keys + {b}, b, c, b', c');
    }
    if Agree(index, slots') {
      forall u | u in slots ensures u in slots' && slots'[u] == slots[u] {
        var b', c' :| IsLive(index, b', c') && u == Uri(b', c');
      }
      forall u | u in slots' ensures u in slots {
        var b', c' :| IsLive(index, b', c') && u == Uri(b', c');
      }
    }
  }

  /**
   With names of which one goes on to the other there is an index that no slots agree with: two live
   candidates with different hashes share a slot.
   */
  lemma SharedSlotDisagrees(b: string, b': string, t: Tracked, t': Tracked, slots: Slots)
    requires b != b' && b + "/" <= b' && t.hash != t'.hash
    ensures !Agree(map[b := map[b'[|b| + 1..] + "/" + "" := t], b' := map["" := t']], slots)
  {
    hide Uri;
    var c := b'[|b| + 1..] + "/" + "";
    var index := map[b := map[c := t], b' := map["" := t']];
    SharedSlot(b, b', "");
    assert IsLive(index, b, c) && HashAt(index, b, c) == t.hash;
    assert IsLive(index, b', "") && HashAt(index, b', "") == t'.hash;
  }

  /** The index with an entry for a backend that may not have had one. */
  function Opened(index: Index, b: string): Index {
    index[b := LiveOf(index, b)]
  }

  lemma OpenedIs(index: Index, b: string, b': string, c': string)
    ensures IsLive(Opened(index, b), b', c') <==> IsLive(index, b', c')
    ensures IsLive(index, b', c') ==> HashAt(Opened(index, b), b', c') == HashAt(index, b', c')
  {
  }

  lemma AgreeOpened(index: Index, slots: Slots, b: string)
    requires Agree(index, slots)
    ensures Agree(Opened(index, b), slots)
  {
    hide Uri, Owned, IsLive, HashAt, Opened;
    forall b', c'
      ensures IsLive(Opened(index, b), b', c') <==> IsLive(index, b', c')
      ensures IsLive(index, b', c') ==> HashAt(Opened(index, b), b', c') == HashAt(index, b', c')
    {
      OpenedIs(index, b, b', c');
    }
    forall u | u in slots ensures Owned(Opened(index, b), u) { OwnedMoves(index, Opened(index, b), u); }
  }

  lemma OwnedMoves(index: Index, index': Index, u: string)
    requires Owned(index, u) && forall b, c | IsLive(index, b, c) :: IsLive(index', b, c)
    ensures Owned(index', u)
  {
    hide Uri, IsLive;
    var b, c :| IsLive(index, b, c) && u == Uri(b, c);
    assert IsLive(index', b, c);
  }

  /** What holds of the index, the slots and the store between operations. */
  ghost predicate Sound(cfg: Config, index: Index, slots: Slots, store: set<Hash>) {
    && Agree(index, slots) && NamesOk(index.Keys)
    && (forall b | b in index :: Bounded(cfg, index[b]))
    && (forall u | u in slots :: slots[u] in store)
  }

  lemma SoundWrite(cfg: Config, index: Index, slots: Slots, store: set<Hash>, b: string, c: string, t: Tracked)
    requires Sound(cfg, index, slots, store) && Registrable(index, b)
    requires c in LiveOf(index, b) || !Full(cfg, LiveOf(index, b))
    ensures Sound(cfg, Write(index, b, c, t), slots[Uri(b, c) := t.hash], store + {t.hash})
  {
    hide Uri, Agree;
    AgreeWrite(index, slots, b, c, t);
    assert Bounded(cfg, LiveOf(index, b));
    WrittenStaysBounded(cfg, LiveOf(index, b), c, t);
  }

  lemma SoundDrop(cfg: Config, index: Index, slots: Slots, store: set<Hash>, b: string, c: string)
    requires Sound(cfg, index, slots, store) && IsLive(index, b, c)
    ensures Sound(cfg, Drop(index, b, c), slots - {Uri(b, c)}, store)
  {
    hide Uri, Agree;
    AgreeDrop(index, slots, b, c);
    var live := index[b] - {c};
    assert live.Keys == index[b].Keys - {c} && |live| == |live.Keys|;
    assert |index[b]| == |index[b].Keys|;
  }

  lemma SoundOpened(cfg: Config, index: Index, slots: Slots, store: set<Hash>, b: string)
    requires Sound(cfg, index, slots, store) && Registrable(index, b)
    ensures Sound(cfg, Opened(index, b), slots, store)
  {
    hide Uri, Agree;
    AgreeOpened(index, slots, b);
    assert Bounded(cfg, LiveOf(index, b));
  }

  lemma SoundIsRegistrable(cfg: Config, index: Index, slots: Slots, store: set<Hash>, b: string)
    requires Sound(cfg, index, slots, store) && b in index
    ensures Registrable(index, b)
  {
    hide Agree, NamesOk;
    KnownIsRegistrable(index, b);
  }

  lemma SoundMove(cfg: Config, index: Index, slots: Slots, store: set<Hash>, b: string, c: string, t: Tracked)
    requires Sound(cfg, index, slots, store) && IsLive(index, b, c)
    ensures Sound(cfg, Write(index, b, c, t), slots[Uri(b, c) := t.hash], store + {t.hash})
  {
    hide Agree, Uri;
    SoundWrite(cfg, index, slots, store, b, c, t);
  }

  lemma SoundStore(cfg: Config, index: Index, slots: Slots, store: set<Hash>, h: Hash)
    requires Sound(cfg, index, slots, store)
    ensures Sound(cfg, index, slots, store + {h})
  {
    hide Agree;
  }

  /** The live entry `c` carries the hash `h`. */
  predicate Shows(index: Index, b: string, c: string, h: Hash) {
    IsLive(index, b, c) && HashAt(index, b, c) == h
  }

  ghost predicate ShownNowhere(index: Index, b: string, h: Hash) {
    forall c :: !Shows(index, b, c, h)
  }

  /** Only entry `c` changed: it carries the successor, seen now, under its old TTL. */
  predicate MovedTo(was: Index, index: Index, b: string, c: string, successor: Hash, now: int)
    requires IsLive(was, b, c)
  {
    index == Write(was, b, c, Tracked(successor, now, was[b][c].ttl))
  }

  // ---------------------------------------------------------------- the extension

  class Extension {
    const cfg: Config
    var index: Index
    var slots: Slots
    var store: set<Hash>

    ghost predicate Valid()
      reads this
    {
      Sound(cfg, index, slots, store)
    }

    constructor (cfg: Config, store: set<Hash>)
      ensures Valid() && this.cfg == cfg && index == map[] && slots == map[] && this.store == store
    {
      this.cfg, index, slots, this.store := cfg, map[], map[], store;
    }

    method OpenBackend(name: string)
      requires Valid() && Registrable(index, name)
      modifies this`index
      ensures Valid() && index == Opened(old(index), name)
      ensures Registrable(index, name)
    {
      hide Sound, Registrable;
      RegistrableLater(index, Opened(index, name), name);
      SoundOpened(cfg, index, slots, store, name);
      if name !in index { index := index[name := map[]]; }
    }

    /** Wraps and writes one observation, unless it is oversized or new at the ceiling. */
    method EmitCandidate(backend: string, o: Observation, atCeiling: bool) returns (r: Option<Hash>)
      requires Valid() && Registrable(index, backend)
      requires atCeiling || o.id in LiveOf(index, backend) || !Full(cfg, LiveOf(index, backend))
      modifies this`index, this`slots, this`store
      ensures Valid()
      ensures if Fits(cfg, backend, o) && (o.id in LiveOf(old(index), backend) || !atCeiling) then
                && r == Some(CandidateOf(cfg, backend, o)) && store == old(store) + {r.value}
                && index == Write(old(index), backend, o.id, TrackedOf(cfg, backend, o))
                && slots == old(slots)[Uri(backend, o.id) := r.value]
              else
                && r == None && slots == old(slots) && store == old(store)
                && index == if Fits(cfg, backend, o) then Opened(old(index), backend) else old(index)
    {
      hide Sound, Uri, Registrable;
      var hint := o.hint;
      if hint.None? && o.peerHint.Some? && o.peerHint.value != "" {
        if cfg.decodes(o.peerHint.value) { hint := Some(ClaimOf(o.peerHint.value)); }
      }
      var seenAt := if o.observedAt.Some? then o.observedAt.value else o.clock;
      var candidate := Candidate(backend, seenAt, o.endpoint, o.peerHint, hint, None);
      if !cfg.fits(candidate) { return None; }
      OpenBackend(backend);
      if o.id !in index[backend] && atCeiling { return None; }
      SoundWrite(cfg, index, slots, store, backend, o.id, TrackedOf(cfg, backend, o));
      slots := slots[Uri(backend, o.id) := candidate];
      store := store + {candidate};
      index := index[backend := index[backend][o.id := Tracked(candidate, seenAt, o.ttl)]];
      return Some(candidate);
    }

    /** A departure: the slot goes, the entity stays in the store. */
    method RemoveCandidate(backend: string, id: string)
      requires Valid()
      modifies this`index, this`slots
      ensures Valid()
      ensures if IsLive(old(index), backend, id) then
                index == Drop(old(index), backend, id) && slots == old(slots) - {Uri(backend, id)}
              else index == old(index) && slots == old(slots)
    {
      hide Sound, Uri, Registrable;
      if backend !in index || id !in index[backend] { return; }
      SoundDrop(cfg, index, slots, store, backend, id);
      slots := slots - {Uri(backend, id)};
      index := index[backend := index[backend] - {id}];
    }

    /** An arrival of the browse session. */
    method OnBrowseArrive(backend: string, o: Observation)
      requires Valid() && Registrable(index, backend)
      modifies this`index, this`slots, this`store
      ensures Valid() && old(store) <= store
      ensures index == old(index)[backend := Absorb(cfg, backend, LiveOf(old(index), backend), [o]).live]
    {
      hide Sound, Uri, Registrable, TrackedOf, CandidateOf, Absorb;
      AbsorbNothing(cfg, backend, LiveOf(index, backend));
      AbsorbStep(cfg, backend, LiveOf(index, backend), [], o);
      assert [] + [o] == [o];
      OpenBackend(backend);
      var atCeiling := o.id !in index[backend] && |index[backend]| >= cfg.ceiling;
      var _ := EmitCandidate(backend, o, atCeiling);
    }

    /** Ages out candidates whose grace window has passed, and no others. */
    method Reap(backend: string, now: int) returns (reaped: set<string>)
      requires Valid()
      modifies this`index, this`slots
      ensures Valid()
      ensures index.Keys == old(index).Keys
      ensures forall b | b in index && b != backend :: index[b] == old(index)[b]
      ensures var was := LiveOf(old(index), backend);
              && (forall c :: c in LiveOf(index, backend) <==>
                    c in was && (was[c].ttl.Some? ==>
                                   now <= was[c].lastSeen + cfg.graceMultiplier * was[c].ttl.value))
              && (forall c | c in LiveOf(index, backend) :: LiveOf(index, backend)[c] == was[c])
      ensures reaped == LiveOf(old(index), backend).Keys - LiveOf(index, backend).Keys
    {
      hide Sound, Uri, Registrable;
      reaped := {};
      if backend !in index { return; }
      ghost var was := index;
      var live := index[backend];
      var todo := live.Keys;
      assert live - {} == live && was[backend := live] == was;
      while todo != {}
        invariant Valid() && todo <= live.Keys && backend in was && live == was[backend]
        invariant reaped == set c | c in live && c !in todo && Stale(cfg, live[c], now)
        invariant index == was[backend := live - reaped]
      {
        var c :| c in todo;
        todo := todo - {c};
        var t := live[c];
        if t.ttl.Some? {
          if now - t.lastSeen > cfg.graceMultiplier * t.ttl.value {
            RemoveCandidate(backend, c);
            assert (live - reaped) - {c} == live - (reaped + {c});
            reaped := reaped + {c};
          }
        }
      }
      assert live - reaped == Fresh(cfg, live, now);
    }

    /** One pass of the scan loop: the answer and the index follow one step of the specification. */
    method ScanOne(backend: string, o: Observation, ghost was: Index, ghost live: Live, ghost seen: seq<Observation>)
      returns (r: Option<Hash>, turned: bool)
      requires Valid() && Registrable(index, backend)
      requires index == was[backend := Absorb(cfg, backend, live, seen).live]
      modifies this`index, this`slots, this`store
      ensures Valid() && old(store) <= store
      ensures var before, after := Absorb(cfg, backend, live, seen), Absorb(cfg, backend, live, seen + [o]);
              && index == was[backend := after.live] && after.turned == (before.turned || turned)
              && after.hashes == if r.Some? then before.hashes + [r.value] else before.hashes
    {
      hide Sound, Uri, Registrable, TrackedOf, CandidateOf, Absorb;
      AbsorbStep(cfg, backend, live, seen, o);
      var atCeiling := |index[backend]| >= cfg.ceiling;
      r := EmitCandidate(backend, o, atCeiling);
      turned := r.None? && atCeiling && o.id !in index[backend];
    }

    /** The loop of a scan over a snapshot; `upto` is how many observations it looked at. */
    method Scan(backend: string, seen: seq<Observation>) returns (hashes: seq<Hash>, truncated: bool, ghost upto: nat)
      requires Valid() && Registrable(index, backend)
      modifies this`index, this`slots, this`store
      ensures Valid() && old(store) <= store && upto <= |seen|
      ensures var r := Absorb(cfg, backend, LiveOf(old(index), backend), seen[..upto]);
              && index == old(index)[backend := r.live] && hashes == r.hashes
              && (truncated <==> r.turned || (0 < |hashes| && |hashes| >= cfg.ceiling && |hashes| < |seen|))
              && (upto < |seen| ==> 0 < |hashes| && |hashes| >= cfg.ceiling)
      ensures !truncated ==>
                upto == |seen| &&
                Complete(cfg, backend, LiveOf(old(index), backend), seen, LiveOf(index, backend), hashes)
    {
      hide Sound, Registrable, Absorb, Complete;
      ghost var was, live := index, LiveOf(index, backend);
      OpenBackend(backend);
      AbsorbNothing(cfg, backend, live);
      hashes, truncated, upto := [], false, 0;
      assert seen[..0] == [];
      var i := 0;
      while i < |seen|
        invariant Valid() && old(store) <= store && i <= |seen| && upto == i
        invariant var r := Absorb(cfg, backend, live, seen[..i]);
                  index == was[backend := r.live] && hashes == r.hashes && truncated == r.turned
        invariant 0 < |hashes| ==> |hashes| < cfg.ceiling
      {
        assert seen[..i] + [seen[i]] == seen[..i + 1];
        SoundIsRegistrable(cfg, index, slots, store, backend);
        var r, turned := ScanOne(backend, seen[i], was, live, seen[..i]);
        i, upto := i + 1, upto + 1;
        truncated := truncated || turned;
        if r.None? { continue; }
        hashes := hashes + [r.value];
        if |hashes| >= cfg.ceiling {
          if |seen| > |hashes| { truncated := true; }
          break;
        }
      }
      AbsorbedCount(cfg, backend, live, seen[..upto]);
      if !truncated {
        assert seen[..upto] == seen;
        UnturnedIsComplete(cfg, backend, live, seen);
      }
    }

    /**
     Admission of an identified peer: a live entry that shows the candidate, if there is one, moves to
     the successor and keeps its TTL; otherwise the successor is only stored. A refusal changes nothing.
     */
    method AdmitIdentified(h: Hash, actual: string, now: int) returns (r: Admission)
      requires Valid()
      modifies this`index, this`slots, this`store
      ensures Valid() && r == Admit(cfg, old(store), h, actual, now)
      ensures !r.Admitted? ==> index == old(index) && slots == old(slots) && store == old(store)
      ensures r.Admitted? ==> store == old(store) + {r.successor}
      ensures r.Admitted? && ShownNowhere(old(index), h.backend, h) ==> index == old(index) && slots == old(slots)
      ensures r.Admitted? && !ShownNowhere(old(index), h.backend, h) ==>
                exists c :: Shows(old(index), h.backend, c, h)
                  && MovedTo(old(index), index, h.backend, c, r.successor, now)
    {
      hide Sound, Uri, Registrable;
      if h !in store || !h.Candidate? { return NotFound; }
      if h.hint.Some? && !(cfg.decodes(actual) && h.hint.value == ClaimOf(actual)) { return HintMismatch; }
      if !cfg.decodes(actual) { return Raised; }
      var successor := Candidate(h.backend, now, h.endpoint, Some(actual), Some(ClaimOf(actual)), Some(h));
      var at := FindLive(h.backend, h);
      if at.Some? {
        var t := Tracked(successor, now, index[h.backend][at.value].ttl);
        SoundMove(cfg, index, slots, store, h.backend, at.value, t);
        slots := slots[Uri(h.backend, at.value) := successor];
        index := index[h.backend := index[h.backend][at.value := t]];
        assert Shows(old(index), h.backend, at.value, h)
          && MovedTo(old(index), index, h.backend, at.value, successor, now);
      } else {
        SoundStore(cfg, index, slots, store, successor);
      }
      store := store + {successor};
      return Admitted(successor);
    }

    /** The loop that looks for a live entry with this hash. */
    method FindLive(backend: string, h: Hash) returns (at: Option<string>)
      ensures at.Some? ==> Shows(index, backend, at.value, h)
      ensures at.None? ==> ShownNowhere(index, backend, h)
    {
      if backend !in index { return None; }
      var todo := index[backend].Keys;
      while todo != {}
        invariant todo <= index[backend].Keys
        invariant forall c | c in index[backend] && c !in todo :: !Shows(index, backend, c, h)
      {
        var c :| c in todo;
        todo := todo - {c};
        if index[backend][c].hash == h { return Some(c); }
      }
      return None;
    }
  }
}
