/**
 Chains of dispatches, each made by the request of the one before it: what the depth brake stops, what it
 does not, and what ends a chain all the same.
 */
module CausalChains {
  import opened ChainBounds
  import opened Joins
  import opened Continuations
  import opened Values

  /**
   One step of a chain: a request advances the continuation it finds, or its sweep, which comes first, reaps
   another join under the same request.
   */
  datatype Hop =
    | ForwardHop(f: Forward, t: Trigger)
    | JoinHop(j: Join, a: Arrival)
    | SweepHop(j: Join, now: int, nowAge: int, bounds: Bounds)

  function BoundsOf(h: Hop): Bounds {
    match h
    case ForwardHop(_, t) => t.bounds
    case JoinHop(_, a) => a.bounds
    case SweepHop(_, _, _, bounds) => bounds
  }

  /** The same step under other bounds. */
  function Under(h: Hop, b: Bounds): Hop {
    match h
    case ForwardHop(_, t) => h.(t := t.(bounds := b))
    case JoinHop(_, a) => h.(a := a.(bounds := b))
    case SweepHop(_, _, _, _) => h.(bounds := b)
  }

  /** An advance dispatches under seeded bounds, a sweep under those of the request as they are. */
  function HandsOn(h: Hop): Bounds {
    if h.SweepHop? then h.bounds else Seed(BoundsOf(h))
  }

  /** A dispatch is made, whatever answer it meets; error routing and deliveries begin chains of their own. */
  predicate Dispatches(h: Hop) {
    match h
    case ForwardHop(f, t) => ForwardAnswerOf(f, t) in {FDispatched, FTransportError}
    case JoinHop(j, a) => Advance(j, a).sent != []
    case SweepHop(j, now, nowAge, _) => Reap(j, now, nowAge).sent != []
  }

  /** The step is answered with a suspension. */
  predicate Suspends(h: Hop) {
    match h
    case ForwardHop(f, t) => ForwardAnswerOf(f, t).FSuspended?
    case JoinHop(j, a) => Advance(j, a).answer.Suspended?
    case SweepHop(_, _, _, _) => false
  }

  /** A partial round is due and can be dispatched; this can be read off the join before the step. */
  predicate FiresPartial(h: Hop) {
    match h
    case ForwardHop(_, _) => false
    case JoinHop(j, a) => PartialDue(j, a) && j.capability.Found?
    case SweepHop(j, now, _, _) => Expired(j, now) && j.onIncomplete.FirePartial? && j.addressed && j.capability.Found?
  }

  /** An advance past the ceiling. */
  predicate PastCeiling(h: Hop) {
    !h.SweepHop? && Braked(BoundsOf(h))
  }

  /** The step comes to a dispatch that asks the brake: a forward advance does at once, a join when it is full. */
  predicate AsksBrake(h: Hop) {
    match h
    case ForwardHop(_, _) => true
    case JoinHop(j, a) =>
      Advance(j, a.(bounds := Bounds(None, None))).answer
      in {Completed, TransportError, MissingCapability, InvalidCapability}
    case SweepHop(_, _, _, _) => false
  }

  // ---------------------------------------------------------------- the brake

  /** What the brake stops: past the ceiling a step that asks it is suspended, and only a due partial is dispatched. */
  lemma BrakeDecides(h: Hop)
    ensures Suspends(h) <==> PastCeiling(h) && AsksBrake(h)
    ensures PastCeiling(h) ==> (Dispatches(h) <==> FiresPartial(h))
  {
    hide Advance;
    if h.JoinHop? {
      JoinSuspends(h.j, h.a);
      if PastCeiling(h) { BrakedFiresIffPartialDue(h.j, h.a); }
    }
  }

  lemma JoinSuspends(j: Join, a: Arrival)
    ensures Advance(j, a).answer.Suspended? <==>
              Braked(a.bounds) &&
              Advance(j, a.(bounds := Bounds(None, None))).answer
              in {Completed, TransportError, MissingCapability, InvalidCapability}
  {
    hide Aged, Reap;
  }

  /** A step dispatches whatever its bounds if and only if a partial round is due: those the brake cannot stop. */
  lemma UnstoppableIffPartial(h: Hop)
    ensures (forall b :: Dispatches(Under(h, b))) <==> FiresPartial(h)
  {
    hide Aged, Fill;
    if !FiresPartial(h) {
      var h' := Under(h, Bounds(Some(MAX_CHAIN_DEPTH), None));
      if !h.SweepHop? { BrakeDecides(h'); }
      assert !Dispatches(h');
    }
  }

  /** Seeding counts one more advance, and raises the time to live of an origin to 512, but lowers none. */
  lemma SeedingRaises(b: Bounds)
    ensures var depth := if b.depth.Some? then b.depth.value else 0;
            var s := Seed(b);
            && s.depth == Some(depth + 1)
            && (depth != 0 ==> s.ttl == b.ttl)
            && (depth == 0 ==> s.ttl.Some? && s.ttl.value >= 512)
            && (b.ttl.Some? ==> s.ttl.Some? && s.ttl.value >= b.ttl.value)
            && (b.ttl.Some? && b.ttl.value >= 512 ==> s.ttl == b.ttl)
            && (depth == 0 && (b.ttl.None? || b.ttl.value <= 512) ==> s.ttl == Some(512))
  {
  }

  // ---------------------------------------------------------------- chains

  /**
   A causal chain: a request that carries no depth, and then each step made by a request that the one
   before it dispatched, with the bounds handed on less what was spent of the time to live.
   */
  predicate CausalChain(hops: seq<Hop>, costs: seq<int>) {
    && |costs| == |hops| && (hops != [] ==> BoundsOf(hops[0]).depth.None?)
    && (forall i | 0 < i < |hops| :: CausedBy(hops[i - 1], costs[i - 1], hops[i]))
  }

  /** Bounds with no depth are not sent to another peer, which then gives the request bounds of its own. */
  predicate CausedBy(before: Hop, cost: int, after: Hop) {
    && Dispatches(before)
    && (BoundsOf(after) == Inherit(HandsOn(before), cost)
        || (HandsOn(before).depth.None? && BoundsOf(after).depth.None?))
  }

  /** How many of the steps are advances; sweeps do not count. */
  function Advances(hops: seq<Hop>): nat {
    if hops == [] then 0
    else Advances(hops[..|hops| - 1]) + if hops[|hops| - 1].SweepHop? then 0 else 1
  }

  lemma AdvancesNext(hops: seq<Hop>, i: nat)
    requires i < |hops|
    ensures Advances(hops[..i + 1]) == Advances(hops[..i]) + if hops[i].SweepHop? then 0 else 1
  {
    assert hops[..i + 1][..i] == hops[..i];
  }

  lemma {:induction false} AdvancesAll(hops: seq<Hop>)
    requires forall h | h in hops :: !h.SweepHop?
    ensures Advances(hops) == |hops|
    decreases |hops|
  {
    if hops != [] { AdvancesAll(hops[..|hops| - 1]); }
  }

  /** The depth that arrives is the number of advances before; at the origin there is none. */
  lemma {:induction false} DepthAt(hops: seq<Hop>, costs: seq<int>, i: nat)
    requires CausalChain(hops, costs) && i < |hops|
    ensures var n := Advances(hops[..i]); BoundsOf(hops[i]).depth == if n == 0 then None else Some(n)
    ensures PastCeiling(hops[i]) <==> !hops[i].SweepHop? && Advances(hops[..i]) >= MAX_CHAIN_DEPTH
  {
    hide Dispatches;
    if i > 0 {
      DepthAt(hops, costs, i - 1);
      AdvancesNext(hops, i - 1);
      assert CausedBy(hops[i - 1], costs[i - 1], hops[i]);
    }
  }

  lemma HopDispatches(hops: seq<Hop>, costs: seq<int>, i: nat)
    requires CausalChain(hops, costs) && i + 1 < |hops|
    ensures Dispatches(hops[i])
  {
    assert CausedBy(hops[i], costs[i], hops[i + 1]);
  }

  /**
   Along any causal chain an advance with at least 64 others before it dispatches if and only if a partial
   round is due, and a step is suspended if and only if it is such an advance and asks the brake.
   */
  lemma ChainBrake(hops: seq<Hop>, costs: seq<int>, i: nat)
    requires CausalChain(hops, costs) && i < |hops|
    ensures Advances(hops[..i]) >= MAX_CHAIN_DEPTH && !hops[i].SweepHop? ==>
              (Dispatches(hops[i]) <==> FiresPartial(hops[i]))
    ensures Suspends(hops[i]) <==>
              Advances(hops[..i]) >= MAX_CHAIN_DEPTH && !hops[i].SweepHop? && AsksBrake(hops[i])
  {
    hide CausalChain, Dispatches, Suspends, FiresPartial, AsksBrake, PastCeiling;
    DepthAt(hops, costs, i);
    BrakeDecides(hops[i]);
  }

  /** So a chain in which no advance past the ceiling has a partial round due has at most 65 advances. */
  lemma ChainsEnd(hops: seq<Hop>, costs: seq<int>)
    requires CausalChain(hops, costs)
    requires forall i | 0 <= i < |hops| && Advances(hops[..i]) >= MAX_CHAIN_DEPTH && !hops[i].SweepHop? ::
               !FiresPartial(hops[i])
    ensures Advances(hops) <= 65
    ensures (forall h | h in hops :: !h.SweepHop?) ==> |hops| <= 65
  {
    hide CausalChain, Dispatches, FiresPartial, Suspends, AsksBrake;
    AdvancesBounded(hops, costs, |hops|);
    assert hops[..|hops|] == hops;
    if forall h | h in hops :: !h.SweepHop? { AdvancesAll(hops); }
  }

  lemma {:induction false} AdvancesBounded(hops: seq<Hop>, costs: seq<int>, n: nat)
    requires CausalChain(hops, costs) && n <= |hops|
    requires forall i | 0 <= i < |hops| && Advances(hops[..i]) >= MAX_CHAIN_DEPTH && !hops[i].SweepHop? ::
               !FiresPartial(hops[i])
    ensures Advances(hops[..n]) <= MAX_CHAIN_DEPTH + 1
    ensures n < |hops| ==> Advances(hops[..n]) <= MAX_CHAIN_DEPTH
  {
    hide CausalChain, Dispatches, FiresPartial, Suspends, AsksBrake;
    if n > 0 {
      AdvancesBounded(hops, costs, n - 1);
      AdvancesNext(hops, n - 1);
      ChainBrake(hops, costs, n - 1);
      if n < |hops| { HopDispatches(hops, costs, n - 1); }
    }
  }

  // ---------------------------------------------------------------- the time to live

  /**
   At the first advance of a chain the time to live is raised; if no step spends more than 7 units there is
   some left at every advance up to the 65th step, so that the depth is what ends a chain.
   */
  lemma {:induction false} TtlLeft(hops: seq<Hop>, costs: seq<int>, i: nat)
    requires CausalChain(hops, costs) && i < |hops|
    requires forall k | 0 <= k < i :: costs[k] <= 7
    ensures !hops[i].SweepHop? ==> HandsOn(hops[i]).ttl.Some? && HandsOn(hops[i]).ttl.value >= CHAIN_TTL - 7 * i
    ensures !hops[i].SweepHop? && i <= MAX_CHAIN_DEPTH ==> HandsOn(hops[i]).ttl.value > 0
    ensures Advances(hops[..i + 1]) > 0 ==>
              HandsOn(hops[i]).ttl.Some? && HandsOn(hops[i]).ttl.value >= CHAIN_TTL - 7 * i
  {
    hide Dispatches;
    DepthAt(hops, costs, i);
    AdvancesNext(hops, i);
    if i > 0 {
      TtlLeft(hops, costs, i - 1);
      assert CausedBy(hops[i - 1], costs[i - 1], hops[i]);
    }
  }

  /** Every dispatch spends some time to live, and a request that has overspent it does not arrive. */
  predicate WithinTtl(hops: seq<Hop>, costs: seq<int>)
    requires |costs| == |hops|
  {
    forall i | 0 < i < |hops| ::
      costs[i - 1] >= 1 && (BoundsOf(hops[i]).ttl.Some? ==> BoundsOf(hops[i]).ttl.value >= 0)
  }

  lemma {:induction false} TtlFalls(hops: seq<Hop>, costs: seq<int>, m: nat, i: nat)
    requires CausalChain(hops, costs) && WithinTtl(hops, costs) && m <= i < |hops| && !hops[m].SweepHop?
    ensures var b := HandsOn(hops[i]);
            && b.ttl.Some? && HandsOn(hops[m]).ttl.Some? && b.depth.Some? && b.depth.value > 0
            && 0 <= b.ttl.value <= HandsOn(hops[m]).ttl.value - (i - m)
  {
    hide Dispatches;
    DepthAt(hops, costs, i);
    if i > 0 {
      assert CausedBy(hops[i - 1], costs[i - 1], hops[i]);
      if m < i { TtlFalls(hops, costs, m, i - 1); } else { SeededTtl(hops, costs, i); }
    }
  }

  /** An advance has a time to live, its own or one handed on. */
  lemma {:induction false} SeededTtl(hops: seq<Hop>, costs: seq<int>, i: nat)
    requires CausalChain(hops, costs) && WithinTtl(hops, costs) && i < |hops|
    ensures Advances(hops[..i + 1]) > 0 ==> HandsOn(hops[i]).ttl.Some?
    ensures !hops[i].SweepHop? ==> HandsOn(hops[i]).ttl.Some? && HandsOn(hops[i]).ttl.value >= 0
  {
    hide Dispatches;
    DepthAt(hops, costs, i);
    AdvancesNext(hops, i);
    if i > 0 {
      SeededTtl(hops, costs, i - 1);
      assert CausedBy(hops[i - 1], costs[i - 1], hops[i]);
    }
  }

  /** After an advance a chain goes on for no more steps than that advance hands on units of time to live. */
  lemma TtlEnds(hops: seq<Hop>, costs: seq<int>, m: nat)
    requires CausalChain(hops, costs) && WithinTtl(hops, costs) && m < |hops| && !hops[m].SweepHop?
    ensures HandsOn(hops[m]).ttl.Some? && |hops| - 1 - m <= HandsOn(hops[m]).ttl.value
  {
    hide CausalChain, WithinTtl, HandsOn;
    TtlFalls(hops, costs, m, |hops| - 1);
  }

  // ---------------------------------------------------------------- the bounds are reached

  /** The bounds the i-th of a chain of like steps gets. */
  function BoundsAt(h: Hop, costs: seq<int>, i: nat): Bounds
    requires i <= |costs|
  {
    if i == 0 then BoundsOf(h) else Inherit(HandsOn(Under(h, BoundsAt(h, costs, i - 1))), costs[i - 1])
  }

  /** A chain of steps that differ only in their bounds. */
  function Repeated(h: Hop, costs: seq<int>): seq<Hop> {
    seq(|costs|, i requires 0 <= i < |costs| => Under(h, BoundsAt(h, costs, i)))
  }

  lemma RepeatedChain(h: Hop, costs: seq<int>)
    requires BoundsOf(h).depth.None?
    requires forall i | 0 <= i < |costs| - 1 :: Dispatches(Under(h, BoundsAt(h, costs, i)))
    ensures CausalChain(Repeated(h, costs), costs)
  {
    hide Dispatches, HandsOn;
    var hops := Repeated(h, costs);
    assert forall b :: BoundsOf(Under(h, b)) == b;
    forall i | 0 < i < |hops| ensures CausedBy(hops[i - 1], costs[i - 1], hops[i]) {
      assert hops[i - 1] == Under(h, BoundsAt(h, costs, i - 1));
    }
  }

  /** 65 advances are reached: by a standing continuation whose trigger it can dispatch on. */
  lemma ForwardChain(f: Forward, t: Trigger, costs: seq<int>)
    requires t.bounds.depth.None? && ForwardAnswerOf(f, t) in {FDispatched, FTransportError}
    requires |costs| <= MAX_CHAIN_DEPTH + 1
    ensures CausalChain(Repeated(ForwardHop(f, t), costs), costs)
  {
    var h := ForwardHop(f, t);
    forall i | 0 <= i < |costs| - 1 ensures Dispatches(Under(h, BoundsAt(h, costs, i))) { ForwardDepth(h, costs, i); }
    RepeatedChain(h, costs);
  }

  lemma {:induction false} ForwardDepth(h: Hop, costs: seq<int>, i: nat)
    requires h.ForwardHop? && BoundsOf(h).depth.None? && i <= |costs|
    ensures BoundsAt(h, costs, i).depth == if i == 0 then None else Some(i)
  {
    if i > 0 { ForwardDepth(h, costs, i - 1); }
  }

  /** Due partial rounds make chains of any length: no depth ends them. */
  lemma PartialChain(h: Hop, costs: seq<int>)
    requires BoundsOf(h).depth.None? && FiresPartial(h)
    ensures CausalChain(Repeated(h, costs), costs)
  {
    hide Dispatches, FiresPartial, HandsOn, CausalChain;
    UnstoppableIffPartial(h);
    RepeatedChain(h, costs);
  }

  /** Those of arrivals are as long as their time to live allows, when each step spends one unit. */
  lemma PartialChainWithinTtl(h: Hop, costs: seq<int>)
    requires h.JoinHop? && BoundsOf(h).depth.None? && (forall k | 0 <= k < |costs| :: costs[k] == 1)
    ensures HandsOn(h).ttl.Some? && (|costs| - 1 <= HandsOn(h).ttl.value ==> WithinTtl(Repeated(h, costs), costs))
  {
    if |costs| - 1 <= HandsOn(h).ttl.value {
      forall i | 0 < i < |costs| ensures BoundsAt(h, costs, i).ttl == Some(HandsOn(h).ttl.value - i) {
        JoinBounds(h, costs, i);
      }
    }
  }

  lemma {:induction false} JoinBounds(h: Hop, costs: seq<int>, i: nat)
    requires h.JoinHop? && BoundsOf(h).depth.None? && (forall k | 0 <= k < |costs| :: costs[k] == 1)
    requires 0 < i <= |costs|
    ensures BoundsAt(h, costs, i) == Bounds(Some(i), Some(HandsOn(h).ttl.value - i))
  {
    if i > 1 { JoinBounds(h, costs, i - 1); }
  }

  /** Those of sweeps keep a request without depth or time to live as it is, so that neither ends them. */
  lemma {:induction false} SweepChainUnbounded(h: Hop, costs: seq<int>)
    requires h.SweepHop? && BoundsOf(h) == Bounds(None, None) && FiresPartial(h)
    requires forall k | 0 <= k < |costs| :: costs[k] >= 1
    ensures CausalChain(Repeated(h, costs), costs) && WithinTtl(Repeated(h, costs), costs)
    ensures Advances(Repeated(h, costs)) == 0
  {
    hide FiresPartial, CausalChain, Dispatches;
    PartialChain(h, costs);
    forall i | 0 <= i < |costs| ensures BoundsAt(h, costs, i) == Bounds(None, None) { SweepBounds(h, costs, i); }
    NoAdvances(Repeated(h, costs));
  }

  lemma {:induction false} SweepBounds(h: Hop, costs: seq<int>, i: nat)
    requires h.SweepHop? && BoundsOf(h) == Bounds(None, None) && i <= |costs|
    ensures BoundsAt(h, costs, i) == Bounds(None, None)
  {
    if i > 0 { SweepBounds(h, costs, i - 1); }
  }

  lemma {:induction false} NoAdvances(hops: seq<Hop>)
    requires forall h | h in hops :: h.SweepHop?
    ensures Advances(hops) == 0
    decreases |hops|
  {
    if hops != [] { NoAdvances(hops[..|hops| - 1]); }
  }
}
