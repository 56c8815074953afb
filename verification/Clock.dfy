/**
 Logical, vector and hybrid logical clocks: how a tree write advances them, the comparison
 functions as orders, and what both together say over whole runs.
 */
module Clock {
  import opened Values

  datatype Order = Before | After | Equal | Concurrent

  /** A hybrid stamp; peer hashes are ordered like the byte strings they are. */
  datatype Hlc = Hlc(physical: int, logical: int, peer: Option<nat>)

  type Entries = map<string, int>

  // ---------------------------------------------------------------- comparison

  function CompareLogical(a: int, b: int): Order {
    if a < b then Before else if a > b then After else Equal
  }

  function CompareHlc(a: Hlc, b: Hlc): Order {
    if a.physical < b.physical then Before
    else if a.physical > b.physical then After
    else if a.logical < b.logical then Before
    else if a.logical > b.logical then After
    else if a.peer.Some? && b.peer.Some? && a.peer.value < b.peer.value then Before
    else if a.peer.Some? && b.peer.Some? && a.peer.value > b.peer.value then After
    else Equal
  }

  /** Strictly later, decided before the peers are looked at. */
  predicate Later(a: Hlc, b: Hlc) {
    a.physical < b.physical || (a.physical == b.physical && a.logical < b.logical)
  }

  /** A counter; a missing one reads as 0. */
  function Counter(e: Entries, p: string): int {
    if p in e then e[p] else 0
  }

  predicate VectorLeq(a: Entries, b: Entries) {
    forall p | p in a.Keys + b.Keys :: Counter(a, p) <= Counter(b, p)
  }

  function VectorOrder(a: Entries, b: Entries): Order {
    if VectorLeq(a, b) && VectorLeq(b, a) then Equal
    else if VectorLeq(a, b) then Before
    else if VectorLeq(b, a) then After
    else Concurrent
  }

  /** The flag-updating loop over all peers of either vector. */
  method CompareVector(a: Entries, b: Entries) returns (r: Order)
    ensures r == VectorOrder(a, b)
  {
    var peers := a.Keys + b.Keys;
    var aLeqB, bLeqA, equal := true, true, true;
    var todo := peers;
    while todo != {}
      invariant todo <= peers
      invariant aLeqB <==> forall p | p in peers && p !in todo :: Counter(a, p) <= Counter(b, p)
      invariant bLeqA <==> forall p | p in peers && p !in todo :: Counter(b, p) <= Counter(a, p)
      invariant equal <==> aLeqB && bLeqA
    {
      var p :| p in todo;
      todo := todo - {p};
      if Counter(a, p) > Counter(b, p) { aLeqB, equal := false, false; }
      if Counter(b, p) > Counter(a, p) { bLeqA, equal := false, false; }
    }
    assert VectorLeq(b, a) <==> forall p | p in peers :: Counter(b, p) <= Counter(a, p);
    if equal { return Equal; }
    if aLeqB { return Before; }
    if bLeqA { return After; }
    return Concurrent;
  }

  ghost predicate SameCounters(a: Entries, b: Entries) {
    forall p :: Counter(a, p) == Counter(b, p)
  }

  /**
   Vector comparison is a partial order on counters: equal means every counter agrees, before and
   after are converses, and before is transitive, also through equal vectors.
   */
  lemma VectorIsPartialOrder(a: Entries, b: Entries, c: Entries)
    ensures VectorOrder(a, b) == Equal <==> SameCounters(a, b)
    ensures VectorOrder(a, b) == Before <==> VectorOrder(b, a) == After
    ensures VectorOrder(a, b) in {Before, Equal} && VectorOrder(b, c) in {Before, Equal} ==>
              VectorOrder(a, c) == (if VectorOrder(a, b) == Equal && VectorOrder(b, c) == Equal then Equal else Before)
  {
    LeqEverywhere(a, b);
    LeqEverywhere(b, a);
    LeqEverywhere(b, c);
    LeqEverywhere(c, b);
    LeqEverywhere(a, c);
    LeqEverywhere(c, a);
  }

  lemma LeqEverywhere(a: Entries, b: Entries)
    ensures VectorLeq(a, b) <==> forall p :: Counter(a, p) <= Counter(b, p)
  {
    forall p | p !in a.Keys + b.Keys ensures Counter(a, p) == Counter(b, p) {}
  }

  /** A counter that is not there reads as 0, and a larger one is later. */
  lemma MissingCounterIsZero(e: Entries, p: string, n: int)
    requires p !in e
    ensures VectorOrder(e, e[p := n]) == if n > 0 then Before else if n == 0 then Equal else After
  {
    var e' := e[p := n];
    assert forall q | q != p :: Counter(e, q) == Counter(e', q);
    assert Counter(e, p) == 0 && Counter(e', p) == n && p in e'.Keys;
    LeqEverywhere(e, e');
    LeqEverywhere(e', e);
  }

  /** Logical clocks compare as the numbers they are. */
  lemma LogicalIsTotalOrder(a: int, b: int)
    ensures CompareLogical(a, b) == Before <==> a < b
    ensures CompareLogical(a, b) == After <==> b < a
    ensures CompareLogical(a, b) == Equal <==> a == b
  {
  }

  /** Hybrid stamps compare by the time, then by the count, then by the peers, where both name one. */
  lemma HlcIsLexicographic(a: Hlc, b: Hlc)
    ensures CompareHlc(a, b) == Before <==>
            || a.physical < b.physical
            || (a.physical == b.physical && a.logical < b.logical)
            || (a.physical == b.physical && a.logical == b.logical &&
                a.peer.Some? && b.peer.Some? && a.peer.value < b.peer.value)
    ensures CompareHlc(a, b) == After <==> CompareHlc(b, a) == Before
    ensures CompareHlc(a, b) == Equal <==>
            a.physical == b.physical && a.logical == b.logical && (a.peer.Some? && b.peer.Some? ==> a.peer == b.peer)
  {
  }

  /** With peers present hybrid comparison is a total order. */
  lemma HlcIsTotalOrder(a: Hlc, b: Hlc, c: Hlc)
    requires a.peer.Some? && b.peer.Some? && c.peer.Some?
    ensures CompareHlc(a, b) == Equal <==> a == b
    ensures CompareHlc(a, b) == Before <==> CompareHlc(b, a) == After
    ensures CompareHlc(a, b) == Before && CompareHlc(b, c) == Before ==> CompareHlc(a, c) == Before
    ensures CompareHlc(a, b) != Concurrent
  {
  }

  /**
   Without a peer it is not.  A chain of stamps that compare before or equal carries over, as equal
   when both steps are equal and as before otherwise, exactly when the outer stamps differ in their
   physical or logical part, or the missing peers cannot hide a difference: a middle stamp with no
   peer asks for an outer one with none or the same peer on both; an outer stamp with no peer, next
   to a middle one that names one, asks that the other step be equal too.
   */
  lemma HlcCarriesOver(a: Hlc, b: Hlc, c: Hlc)
    requires CompareHlc(a, b) in {Before, Equal} && CompareHlc(b, c) in {Before, Equal}
    ensures (CompareHlc(a, c) == if CompareHlc(a, b) == Equal && CompareHlc(b, c) == Equal then Equal else Before) <==>
            (Later(a, c) ||
             if b.peer.None? then a.peer.None? || c.peer.None? || a.peer == c.peer
             else (a.peer.Some? || CompareHlc(b, c) == Equal) && (c.peer.Some? || CompareHlc(a, b) == Equal))
  {
  }

  /** Each of the ways it fails: over a middle stamp with no peer, and from or to an outer one with none. */
  lemma HlcNotTransitiveWithoutPeer()
    ensures exists a, b, c :: CompareHlc(a, b) == Equal && CompareHlc(b, c) == Equal && CompareHlc(a, c) == Before
    ensures exists a, b, c :: CompareHlc(a, b) == Before && CompareHlc(b, c) == Equal && CompareHlc(a, c) == Equal
    ensures exists a, b, c :: CompareHlc(a, b) == Equal && CompareHlc(b, c) == Before && CompareHlc(a, c) == Equal
  {
    var one, two, none := Hlc(0, 0, Some(1)), Hlc(0, 0, Some(2)), Hlc(0, 0, None);
    assert CompareHlc(one, none) == Equal && CompareHlc(none, two) == Equal && CompareHlc(one, two) == Before;
    assert CompareHlc(one, two) == Before && CompareHlc(two, none) == Equal && CompareHlc(one, none) == Equal;
    assert CompareHlc(none, one) == Equal && CompareHlc(one, two) == Before && CompareHlc(none, two) == Equal;
  }

  // ---------------------------------------------------------------- advancement

  const MAX_VECTOR_ENTRIES := 1024

  function Max(a: int, b: int): int { if a > b then a else b }

  function NextHlc(h: Hlc, wall: int, peer: Option<nat>): Hlc {
    var physical := Max(wall, h.physical);
    Hlc(physical, if physical == h.physical then h.logical + 1 else 0, peer)
  }

  /** An entry with the lowest counter. */
  predicate IsLowest(e: Entries, p: string) {
    p in e && forall q | q in e :: e[p] <= e[q]
  }

  /** The vector after an advance: the local entry is set, and past the limit one lowest entry goes. */
  predicate VectorAdvanced(before: Entries, local: string, counter: int, after: Entries) {
    var set' := before[local := counter];
    if |set'| <= MAX_VECTOR_ENTRIES then after == set'
    else exists p | p in set' :: IsLowest(set', p) && after == set' - {p}
  }

  method LowestEntry(e: Entries) returns (low: string)
    requires e != map[]
    ensures IsLowest(e, low)
  {
    assert e.Keys != {};
    low :| low in e;
    var todo := e.Keys - {low};
    while todo != {}
      invariant todo <= e.Keys && low in e
      invariant forall q | q in e && q !in todo :: e[low] <= e[q]
    {
      var p :| p in todo;
      todo := todo - {p};
      if e[p] < e[low] { low := p; }
    }
  }

  datatype Mode = WallMode | LogicalMode | VectorMode | HlcMode

  /** What an advance reports: the stamps of the clocks its mode keeps, and the wall time. */
  datatype Stamp = Stamp(
    mode: Mode, logical: Option<int>, vector: Option<Entries>, hlc: Option<Hlc>, timestamp: Option<int>)

  /** The configured mode, and whether the wall time is reported in modes that do not need it. */
  datatype Config = Config(mode: Mode, wallClock: bool)

  /** Counters are not negative, and the local entry never runs ahead of the logical clock. */
  predicate VectorOk(e: Entries, local: string, logical: int) {
    (forall p | p in e :: e[p] >= 0) && Counter(e, local) <= logical && logical >= 0
  }

  lemma VectorAdvanceKeeps(before: Entries, local: string, logical: int, after: Entries)
    requires VectorOk(before, local, logical) && VectorAdvanced(before, local, logical + 1, after)
    ensures VectorOk(after, local, logical + 1)
  {
  }

  /** The stored clock state of a peer; initially every counter is 0. */
  class ClockStore {
    var logical: int
    var vector: Entries
    var hlc: Hlc

    constructor ()
      ensures logical == 0 && vector == map[] && hlc == Hlc(0, 0, None)
    {
      logical, vector, hlc := 0, map[], Hlc(0, 0, None);
    }

    method AdvanceVector(local: string)
      modifies this`vector
      ensures VectorAdvanced(old(vector), local, logical, vector)
      ensures VectorOk(old(vector), local, logical - 1) ==> VectorOk(vector, local, logical)
    {
      var entries := vector[local := logical];
      if |entries| > MAX_VECTOR_ENTRIES {
        var low := LowestEntry(entries);
        entries := entries - {low};
      }
      if VectorOk(vector, local, logical - 1) { VectorAdvanceKeeps(vector, local, logical - 1, entries); }
      vector := entries;
    }

    /**
     The clock on one tree write; writes to the clock's own output paths are ignored.  `wall` is the
     reading the hybrid clock takes, `reported` the one the report takes at the end.
     */
    method Advance(enginePath: bool, cfg: Config, local: string, peer: Option<nat>, wall: int, reported: int)
      returns (r: Option<Stamp>)
      modifies this
      ensures enginePath ==> r.None?
      ensures enginePath || cfg.mode.WallMode? ==> logical == old(logical)
      ensures !enginePath ==> r.Some? && r.value.mode == cfg.mode
      ensures !enginePath ==> r.value.timestamp == if cfg.mode.WallMode? || cfg.wallClock then Some(reported) else None
      ensures !enginePath && !cfg.mode.WallMode? ==>
                logical == old(logical) + 1 && r.value.logical == Some(logical) &&
                CompareLogical(old(logical), logical) == Before
      ensures !enginePath && cfg.mode.VectorMode? ==>
                VectorAdvanced(old(vector), local, logical, vector) && r.value.vector == Some(vector)
      ensures enginePath || !cfg.mode.VectorMode? ==> vector == old(vector)
      ensures !enginePath && cfg.mode.HlcMode? ==> hlc == NextHlc(old(hlc), wall, peer) && r.value.hlc == Some(hlc)
      ensures enginePath || !cfg.mode.HlcMode? ==> hlc == old(hlc)
      ensures old(VectorOk(vector, local, logical)) ==> VectorOk(vector, local, logical)
    {
      hide VectorAdvanced;
      if enginePath { return None; }
      var stamp := Stamp(cfg.mode, None, None, None, None);
      if cfg.mode.WallMode? { return Some(stamp.(timestamp := Some(reported))); }
      logical := logical + 1;
      stamp := stamp.(logical := Some(logical));
      if cfg.mode.VectorMode? {
        AdvanceVector(local);
        stamp := stamp.(vector := Some(vector));
      }
      if cfg.mode.HlcMode? {
        var physical := Max(wall, hlc.physical);
        var count := if physical == hlc.physical then hlc.logical + 1 else 0;
        hlc := Hlc(physical, count, peer);
        stamp := stamp.(hlc := Some(hlc));
      }
      if cfg.wallClock { stamp := stamp.(timestamp := Some(reported)); }
      return Some(stamp);
    }
  }

  // ---------------------------------------------------------------- runs of the hybrid clock

  /** One event of a run: the wall reading and the peer hash at that moment. */
  datatype Tick = Tick(wall: int, peer: Option<nat>)

  /** The stamps of a run. */
  function HlcRun(h: Hlc, ticks: seq<Tick>): seq<Hlc>
    decreases |ticks|
  {
    if ticks == [] then []
    else
      var next := NextHlc(h, ticks[0].wall, ticks[0].peer);
      [next] + HlcRun(next, ticks[1..])
  }

  function MaxReading(start: int, ticks: seq<Tick>): int
    decreases |ticks|
  {
    if ticks == [] then start else MaxReading(Max(start, ticks[0].wall), ticks[1..])
  }

  lemma {:induction false} RunRises(h: Hlc, ticks: seq<Tick>)
    ensures var s := HlcRun(h, ticks);
            && |s| == |ticks|
            && (forall i | 0 <= i < |s| :: Later(h, s[i]))
            && (forall i, j | 0 <= i < j < |s| :: Later(s[i], s[j]))
    decreases |ticks|
  {
    if ticks != [] {
      var next := NextHlc(h, ticks[0].wall, ticks[0].peer);
      RunRises(next, ticks[1..]);
    }
  }

  lemma {:induction false} RunPhysical(h: Hlc, ticks: seq<Tick>, i: nat)
    requires i < |ticks|
    ensures |HlcRun(h, ticks)| == |ticks|
    ensures HlcRun(h, ticks)[i].physical == MaxReading(h.physical, ticks[..i + 1])
    decreases |ticks|
  {
    RunRises(h, ticks);
    var next := NextHlc(h, ticks[0].wall, ticks[0].peer);
    assert ticks[..i + 1][0] == ticks[0] && ticks[..i + 1][1..] == ticks[1..][..i];
    if i > 0 { RunPhysical(next, ticks[1..], i - 1); }
  }

  lemma {:induction false} StampAfter(h: Hlc, ticks: seq<Tick>, i: nat)
    requires i < |ticks|
    ensures var s := HlcRun(h, ticks);
            |s| == |ticks| && s[i] == NextHlc(if i == 0 then h else s[i - 1], ticks[i].wall, ticks[i].peer)
    decreases |ticks|
  {
    RunRises(h, ticks);
    if i > 0 {
      var next := NextHlc(h, ticks[0].wall, ticks[0].peer);
      StampAfter(next, ticks[1..], i - 1);
    }
  }

  /**
   The logical part of a stamp counts the writes since the physical part last rose, in write `k`, or since
   the start, from where it was; and a stamp bears the peer of its own write.
   */
  lemma {:induction false} LogicalCounts(h: Hlc, ticks: seq<Tick>, k: nat, i: nat)
    requires k <= i < |ticks|
    ensures var s := HlcRun(h, ticks);
            && |s| == |ticks| && s[i].peer == ticks[i].peer
            && (s[i].physical == s[k].physical && s[k].physical > (if k == 0 then h.physical else s[k - 1].physical) ==>
                  s[i].logical == i - k)
            && (s[i].physical == h.physical ==> s[i].logical == h.logical + 1 + i)
    decreases i
  {
    hide HlcRun;
    StampAfter(h, ticks, i);
    RunRises(h, ticks);
    if i > k { LogicalCounts(h, ticks, k, i - 1); }
    else if i > 0 { LogicalCounts(h, ticks, i - 1, i - 1); }
  }

  lemma {:induction false} MaxReadingIsMax(start: int, ticks: seq<Tick>)
    ensures var m := MaxReading(start, ticks);
            && start <= m && (forall i | 0 <= i < |ticks| :: ticks[i].wall <= m)
            && (m == start || exists i :: 0 <= i < |ticks| && ticks[i].wall == m)
    decreases |ticks|
  {
    if ticks != [] {
      MaxReadingIsMax(Max(start, ticks[0].wall), ticks[1..]);
      var m := MaxReading(start, ticks);
      if m != start && m != ticks[0].wall {
        var i :| 0 <= i < |ticks[1..]| && ticks[1..][i].wall == m;
        assert ticks[i + 1].wall == m;
      }
    }
  }

  /**
   For any wall readings, also backward jumps, every hybrid stamp compares after all earlier ones,
   and its physical part is the largest of the initial value and the readings so far.
   */
  lemma HlcMonotone(h: Hlc, ticks: seq<Tick>, i: nat, j: nat)
    requires i < j < |ticks|
    ensures |HlcRun(h, ticks)| == |ticks|
    ensures var s := HlcRun(h, ticks);
            && CompareHlc(s[i], s[j]) == Before && CompareHlc(s[j], s[i]) == After
            && CompareHlc(h, s[i]) == Before
            && s[j].physical == MaxReading(h.physical, ticks[..j + 1])
  {
    RunRises(h, ticks);
    RunPhysical(h, ticks, j);
    assert Later(HlcRun(h, ticks)[i], HlcRun(h, ticks)[j]);
  }

  // ---------------------------------------------------------------- runs of the vector clock

  /** An advance that prunes nothing makes a later stamp. */
  lemma UnprunedAdvanceIsLater(before: Entries, local: string, logical: int)
    requires VectorOk(before, local, logical)
    ensures VectorOrder(before[local := logical + 1], before) == After
  {
    var after := before[local := logical + 1];
    assert local in after.Keys + before.Keys && Counter(after, local) > Counter(before, local);
    assert VectorLeq(before, after);
  }

  /**
   An advance that prunes makes a later stamp exactly when what it drops is another peer's entry
   that counted nothing.
   */
  lemma PrunedAdvanceOrder(before: Entries, local: string, logical: int, low: string)
    requires VectorOk(before, local, logical) && IsLowest(before[local := logical + 1], low)
    ensures VectorOrder(before[local := logical + 1] - {low}, before) == After <==>
            low != local && Counter(before, low) == 0
  {
    var full := before[local := logical + 1];
    var after := full - {low};
    LeqEverywhere(before, after);
    LeqEverywhere(after, before);
    assert forall p :: Counter(after, p) == if p == low then 0 else Counter(full, p);
    assert forall p :: Counter(full, p) == if p == local then logical + 1 else Counter(before, p);
    assert Counter(before, low) >= 0 && Counter(before, local) >= 0;
    if low == local {
      assert VectorLeq(after, before) by {
        forall p ensures Counter(after, p) <= Counter(before, p) {
          if p == local { assert Counter(after, p) == 0; }
        }
      }
    } else {
      assert Counter(after, local) == logical + 1 > Counter(before, local);
      if Counter(before, low) == 0 {
        forall p ensures Counter(before, p) <= Counter(after, p) {}
      } else {
        assert Counter(after, low) == 0 < Counter(before, low);
      }
    }
  }

  /** The vectors of a run of `n` local advances that never reaches the limit. */
  function VectorRun(e: Entries, local: string, logical: int, n: nat): seq<Entries>
    decreases n
  {
    if n == 0 then [] else [e[local := logical + 1]] + VectorRun(e[local := logical + 1], local, logical + 1, n - 1)
  }

  lemma {:induction false} VectorRunRises(e: Entries, local: string, logical: int, n: nat)
    requires VectorOk(e, local, logical)
    ensures var s := VectorRun(e, local, logical, n);
            && |s| == n
            && (forall i | 0 <= i < n :: VectorOrder(s[i], e) == After)
            && (forall i, j | 0 <= i < j < n :: VectorOrder(s[j], s[i]) == After)
    decreases n
  {
    if n > 0 {
      var next := e[local := logical + 1];
      var rest := VectorRun(next, local, logical + 1, n - 1);
      UnprunedAdvanceIsLater(e, local, logical);
      VectorRunRises(next, local, logical + 1, n - 1);
      forall i | 0 <= i < n - 1 ensures VectorOrder(rest[i], e) == After {
        AfterTransitive(rest[i], next, e);
      }
    }
  }

  lemma AfterTransitive(a: Entries, b: Entries, c: Entries)
    requires VectorOrder(a, b) == After && VectorOrder(b, c) == After
    ensures VectorOrder(a, c) == After
  {
    VectorIsPartialOrder(b, a, c);
    VectorIsPartialOrder(c, b, a);
  }

  /** The vector before step `i` of a run. */
  function VectorAt(e: Entries, local: string, logical: int, i: nat): Entries {
    if i == 0 then e else e[local := logical + i]
  }

  lemma {:induction false} VectorRunAt(e: Entries, local: string, logical: int, n: nat, i: nat)
    requires i < n
    ensures var s := VectorRun(e, local, logical, n);
            |s| == n && s[i] == VectorAt(e, local, logical, i + 1)
    decreases n
  {
    var next := e[local := logical + 1];
    if n > 1 { VectorRunAt(next, local, logical + 1, n - 1, if i > 0 then i - 1 else 0); }
  }

  /** The run is the one the clock takes: as long as the peers fit, no advance prunes. */
  lemma VectorRunIsUnpruned(e: Entries, local: string, logical: int, n: nat, i: nat)
    requires |e.Keys + {local}| <= MAX_VECTOR_ENTRIES && i < n
    ensures var s := VectorRun(e, local, logical, n);
            && |s| == n
            && VectorAdvanced(if i == 0 then e else s[i - 1], local, logical + 1 + i, s[i])
  {
    hide VectorRun, VectorAdvanced, VectorAt;
    VectorRunAt(e, local, logical, n, i);
    if i > 0 { VectorRunAt(e, local, logical, n, i - 1); }
    var before := VectorAt(e, local, logical, i);
    VectorAtStep(e, local, logical, i);
    FittingAdvance(before, e.Keys + {local}, local, logical + 1 + i);
  }

  lemma VectorAtStep(e: Entries, local: string, logical: int, i: nat)
    ensures VectorAt(e, local, logical, 0) == e
    ensures VectorAt(e, local, logical, i)[local := logical + 1 + i] == VectorAt(e, local, logical, i + 1)
    ensures VectorAt(e, local, logical, i).Keys <= e.Keys + {local}
  {
  }

  lemma FittingAdvance(before: Entries, peers: set<string>, local: string, counter: int)
    requires before.Keys <= peers && local in peers && |peers| <= MAX_VECTOR_ENTRIES
    ensures VectorAdvanced(before, local, counter, before[local := counter])
  {
    var after := before[local := counter];
    SubsetSize(after.Keys, peers);
    assert |after| == |after.Keys|;
  }

  lemma SubsetSize(a: set<string>, b: set<string>)
    requires a <= b
    ensures |a| <= |b|
  {
    assert b == a + (b - a);
  }
}
