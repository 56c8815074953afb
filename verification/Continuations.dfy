/**
 The continuation engine of one peer: stored continuations by path, the sweep index over joins
 with a deadline and its throttle.  Every method reads and overwrites the stored continuation
 as one step; its effect is tied to the state machine in `Joins`.
 */
module Continuations {
  import opened ChainBounds
  import opened Joins
  import opened Values

  /** The lifecycle half of a forward continuation. */
  datatype Forward = Forward(
    addressed: bool, capability: Capability, remaining: Option<int>,
    hasParams: bool, hasResultField: bool, merges: bool, hasOnError: bool)

  datatype Cont = JoinCont(join: Join) | ForwardCont(forward: Forward) | OtherEntity

  /** A forward trigger, with the bounds of its request and the answer its dispatch meets. */
  datatype Trigger = Trigger(status: int, bounds: Bounds, delivered: bool)

  datatype ForwardAnswer =
    | FSuspended | FInvalid | FExhausted | FErrorRouted | FInvalidDispatchMode
    | FMissingCapability | FInvalidCapability | FTransportError | FDispatched

  function ForwardAnswerOf(f: Forward, t: Trigger): ForwardAnswer {
    if Braked(t.bounds) then FSuspended
    else if !f.addressed then FInvalid
    else if f.remaining.Some? && f.remaining.value <= 0 then FExhausted
    else if t.status >= 400 && f.hasOnError then FErrorRouted
    else if !f.merges && f.hasResultField && !f.hasParams then FInvalidDispatchMode
    else if f.capability.Missing? then FMissingCapability
    else if f.capability.Unresolved? then FInvalidCapability
    else if !t.delivered then FTransportError
    else FDispatched
  }

  /** The depth a trigger arrives with, one more: what the brake is asked of. */
  function NextDepth(t: Trigger): int {
    1 + match t.bounds.depth
        case None => 0
        case Some(d) => d
  }

  /**
   What becomes of a forward advance, by the fields.  Past the depth of 64 it is suspended before anything is
   looked at; an error goes to its handler before a dispatch is put together; a result field without
   parameters is malformed unless results are merged; and a dispatch needs a capability that is found.
   */
  lemma ForwardAnswers(f: Forward, t: Trigger)
    ensures var answer := ForwardAnswerOf(f, t);
            var live := NextDepth(t) <= 64 && f.addressed && (f.remaining.Some? ==> f.remaining.value > 0);
            var routed := t.status >= 400 && f.hasOnError;
            var formed := f.merges || !f.hasResultField || f.hasParams;
            && (answer.FSuspended? <==> NextDepth(t) > 64)
            && (answer.FInvalid? <==> NextDepth(t) <= 64 && !f.addressed)
            && (answer.FExhausted? <==>
                  NextDepth(t) <= 64 && f.addressed && f.remaining.Some? && f.remaining.value <= 0)
            && (answer.FErrorRouted? <==> live && routed)
            && (answer.FInvalidDispatchMode? <==> live && !routed && !formed)
            && (answer.FMissingCapability? <==> live && !routed && formed && f.capability.Missing?)
            && (answer.FInvalidCapability? <==> live && !routed && formed && f.capability.Unresolved?)
            && (answer.FDispatched? <==> live && !routed && formed && f.capability.Found? && t.delivered)
  {
  }

  /** Only a delivered dispatch ages a forward continuation. */
  function ForwardAfter(f: Forward, t: Trigger): Option<Forward> {
    if !ForwardAnswerOf(f, t).FDispatched? || f.remaining.None? then Some(f)
    else if f.remaining.value - 1 <= 0 then None
    else Some(f.(remaining := Some(f.remaining.value - 1)))
  }

  // ---------------------------------------------------------------- forward runs

  datatype ForwardRun = ForwardRun(cont: Option<Forward>, fires: nat)

  function ForwardStep(r: ForwardRun, t: Trigger): ForwardRun {
    match r.cont
    case None => r
    case Some(f) =>
      ForwardRun(ForwardAfter(f, t), r.fires + if ForwardAnswerOf(f, t).FDispatched? then 1 else 0)
  }

  function ForwardExecute(r: ForwardRun, ts: seq<Trigger>): ForwardRun
    decreases |ts|
  {
    if ts == [] then r else ForwardExecute(ForwardStep(r, ts[0]), ts[1..])
  }

  lemma {:induction false} ForwardCounts(n: int, r: ForwardRun, ts: seq<Trigger>)
    requires n >= 1
    requires if r.cont.Some?
             then r.cont.value.remaining.Some? && r.cont.value.remaining.value >= 1
               && r.cont.value.remaining.value + r.fires == n
             else r.fires == n
    ensures var e := ForwardExecute(r, ts);
            if e.cont.Some? then e.cont.value.remaining.Some? && e.cont.value.remaining.value >= 1
              && e.cont.value.remaining.value + e.fires == n
            else e.fires == n
    decreases |ts|
  {
    if ts != [] { ForwardCounts(n, ForwardStep(r, ts[0]), ts[1..]); }
  }

  lemma {:induction false} StandingStays(r: ForwardRun, ts: seq<Trigger>)
    requires r.cont.Some? && r.cont.value.remaining.None?
    ensures var e := ForwardExecute(r, ts); e.cont == r.cont
    decreases |ts|
  {
    if ts != [] { StandingStays(ForwardStep(r, ts[0]), ts[1..]); }
  }

  lemma {:induction false} ExhaustedStays(r: ForwardRun, ts: seq<Trigger>)
    requires r.cont.Some? && r.cont.value.remaining.Some? && r.cont.value.remaining.value <= 0
    ensures ForwardExecute(r, ts) == r
    decreases |ts|
  {
    if ts != [] { ExhaustedStays(ForwardStep(r, ts[0]), ts[1..]); }
  }

  /**
   A forward continuation installed with N executions: completed dispatches plus what remains is N in
   every reachable state, and it is deleted exactly at the N-th; one installed with none or fewer never
   dispatches; a standing one stays unchanged.
   */
  lemma ForwardLifetime(f: Forward, ts: seq<Trigger>)
    ensures var e := ForwardExecute(ForwardRun(Some(f), 0), ts);
            match f.remaining
            case None => e.cont == Some(f)
            case Some(n) =>
              if n <= 0 then e.fires == 0 && e.cont == Some(f)
              else
                && e.fires <= n && (e.cont.None? <==> e.fires == n)
                && (e.cont.Some? ==> e.cont.value.remaining == Some(n - e.fires))
  {
    match f.remaining
    case None => StandingStays(ForwardRun(Some(f), 0), ts);
    case Some(n) =>
      if n <= 0 { ExhaustedStays(ForwardRun(Some(f), 0), ts); } else { ForwardCounts(n, ForwardRun(Some(f), 0), ts); }
  }

  // ---------------------------------------------------------------- the peer

  type Conts = map<string, Cont>

  /** The store after a join at `path` became `j`, or was deleted. */
  function Put(conts: Conts, path: string, j: Option<Join>): Conts {
    if j.Some? then conts[path := JoinCont(j.value)] else conts - {path}
  }

  predicate IsDeadlineJoin(conts: Conts, path: string) {
    path in conts && conts[path].JoinCont? && conts[path].join.deadline.Some?
  }

  /** What sweeping one path makes of it. */
  function SweptOne(conts: Conts, path: string, now: int, nowAge: int): Conts {
    if IsDeadlineJoin(conts, path) then Put(conts, path, Reap(conts[path].join, now, nowAge).join) else conts
  }

  /** What sweeping one path dispatches. */
  function SweptRequests(conts: Conts, path: string, now: int, nowAge: int): seq<Request> {
    if IsDeadlineJoin(conts, path) then Reap(conts[path].join, now, nowAge).sent else []
  }

  /** The clock readings a sweep takes at each path: at the reap and at the aging. */
  type Clock = string -> (int, int)

  const SWEEP_THROTTLE_MS := 60000

  lemma PutTwice(conts: Conts, path: string, j: Join, next: Option<Join>)
    ensures Put(Put(conts, path, Some(j)), path, next) == Put(conts, path, next)
  {
  }

  lemma ReapKeepsDeadline(j: Join, now: int, nowAge: int)
    ensures var p := Reap(j, now, nowAge); p.join.Some? ==> p.join.value.deadline == j.deadline
  {
  }

  lemma FillKeepsDeadline(j: Join, a: Arrival)
    ensures var o := Fill(j, a); o.join.Some? ==> o.join.value.deadline == j.deadline
  {
  }

  datatype InstallAnswer =
    | InvalidParams | MissingDispatchCapability | InvalidPolicy | InvalidDeadline | CapabilityNotFound | InstallDone

  function InstallAnswerOf(j: Join): InstallAnswer {
    if !j.addressed then InvalidParams
    else if j.capability.Missing? then MissingDispatchCapability
    else if j.onIncomplete.FirePartial? && j.deadline.None? then InvalidPolicy
    else if j.deadline.Some? && j.deadline.value <= 0 then InvalidDeadline
    else if j.capability.Unresolved? then CapabilityNotFound
    else InstallDone
  }

  function InstalledAs(j: Join, now: int): Join {
    if j.deadline.Some? then j.(roundId := Some(0), roundStarted := Some(now)) else j
  }

  /** Install takes a join exactly when it is addressed, its policy fits and its capability is found. */
  lemma InstallTakes(j: Join)
    ensures InstallAnswerOf(j).InstallDone? <==>
            && j.addressed && j.capability.Found?
            && (if j.deadline.Some? then j.deadline.value > 0 else j.onIncomplete.Abandon?)
  {
  }

  class Peer {
    var conts: Conts
    var tracked: set<string>
    var lastSweepMs: int

    /** Every stored join with a deadline is in the sweep index. */
    predicate Valid()
      reads this
    {
      forall p | p in conts && IsDeadlineJoin(conts, p) :: p in tracked
    }

    constructor ()
      ensures Valid() && conts == map[] && tracked == {} && lastSweepMs == 0
    {
      conts, tracked, lastSweepMs := map[], {}, 0;
    }

    /** A peer that has restarted: its continuations are stored, its sweep index is empty. */
    constructor Restarted(conts: Conts)
      ensures this.conts == conts && tracked == {} && lastSweepMs == 0
    {
      this.conts, tracked, lastSweepMs := conts, {}, 0;
    }

    /** Install rejects a malformed join; a deadline join starts in round 0 at the install time and is tracked. */
    method InstallJoin(path: string, j: Join, now: int) returns (answer: InstallAnswer)
      modifies this
      ensures old(Valid()) ==> Valid()
      ensures lastSweepMs == old(lastSweepMs)
      ensures answer == InstallAnswerOf(j)
      ensures answer.InstallDone? ==>
                Installed(InstalledAs(j, now)) && conts == old(conts)[path := JoinCont(InstalledAs(j, now))] &&
                tracked == if j.deadline.Some? then old(tracked) + {path} else old(tracked)
      ensures !answer.InstallDone? ==> conts == old(conts) && tracked == old(tracked)
    {
      if !j.addressed { return InvalidParams; }
      if j.capability.Missing? { return MissingDispatchCapability; }
      if j.onIncomplete.FirePartial? && j.deadline.None? { return InvalidPolicy; }
      if j.deadline.Some? && j.deadline.value <= 0 { return InvalidDeadline; }
      if j.capability.Unresolved? { return CapabilityNotFound; }
      var data := j;
      if j.deadline.Some? { data := data.(roundId := Some(0), roundStarted := Some(now)); }
      conts := conts[path := JoinCont(data)];
      NoteJoinPath(path, j.deadline);
      return InstallDone;
    }

    method NoteJoinPath(path: string, deadline: Option<int>)
      modifies this`tracked
      ensures tracked == if deadline.Some? then old(tracked) + {path} else old(tracked)
    {
      if deadline.None? { return; }
      tracked := tracked + {path};
    }

    method AgeJoinAfterFire(path: string, j: Join, now: int) returns (j': Option<Join>)
      modifies this`conts
      ensures j' == Aged(j, now) && conts == Put(old(conts), path, j')
    {
      if j.remaining.Some? && j.remaining.value - 1 <= 0 {
        conts := conts - {path};
        return None;
      }
      var data := j;
      if j.remaining.Some? { data := data.(remaining := Some(j.remaining.value - 1)); }
      data := data.(received := map[]);
      if j.deadline.Some? {
        data := data.(roundId := Some(RoundOf(j) + 1), roundStarted := Some(now));
      }
      conts := conts[path := JoinCont(data)];
      return Some(data);
    }

    /** Acts on an expired round; the fire-partial dispatch is best effort and ages the join either way. */
    method ReapExpiredRound(path: string, j: Join, now: int, nowAge: int)
      returns (acted: bool, j': Option<Join>, sent: seq<Request>)
      requires path in conts && conts[path] == JoinCont(j)
      modifies this`conts
      ensures acted == Expired(j, now) && j' == Reap(j, now, nowAge).join && sent == Reap(j, now, nowAge).sent
      ensures conts == Put(old(conts), path, j')
    {
      var due := j.deadline.Some? && j.roundStarted.Some? && j.expected != [] &&
                 j.received.Keys != Slots(j.expected) && now - j.roundStarted.value >= j.deadline.value;
      if !due { return false, Some(j), []; }
      if j.onIncomplete.FirePartial? {
        sent := [];
        if j.addressed && j.capability.Found? { sent := [Request(Partial, j.received)]; }
        j' := AgeJoinAfterFire(path, j, nowAge);
        return true, j', sent;
      }
      var data := j.(received := map[], roundId := Some(RoundOf(j) + 1), roundStarted := Some(now));
      conts := conts[path := JoinCont(data)];
      return true, Some(data), [];
    }

    /** The slot checks, the accumulation and the terminal dispatch of an advance. */
    method FillSlot(path: string, j: Join, a: Arrival) returns (answer: Answer, sent: seq<Request>)
      requires path in conts && conts[path] == JoinCont(j)
      modifies this`conts
      ensures answer == Fill(j, a).answer && sent == Fill(j, a).sent && conts == Put(old(conts), path, Fill(j, a).join)
    {
      if a.slot == "" || a.slot !in j.expected { return InvalidSlot, []; }
      if j.deadline.Some? && a.tag.Some? && a.tag != j.roundId { return StaleRound, []; }
      if a.slot in j.received { return AlreadyFilled, []; }
      var received := j.received[a.slot := a.value];
      if received.Keys == Slots(j.expected) {
        if DepthExceeded(Seed(a.bounds)) { return Suspended, []; }
        if j.capability.Missing? { return MissingCapability, []; }
        if j.capability.Unresolved? { return InvalidCapability, []; }
        sent := [Request(Fired, received)];
        if !a.delivered { return TransportError, sent; }
        var _ := AgeJoinAfterFire(path, j, a.nowAge);
        return Completed, sent;
      }
      conts := conts[path := JoinCont(j.(received := received))];
      return Accumulated, [];
    }

    /** One arrival at a stored join; touching a join with a deadline tracks it, also after a restart. */
    method AdvanceJoin(path: string, a: Arrival) returns (answer: Answer, sent: seq<Request>)
      requires path in conts && conts[path].JoinCont?
      modifies this
      ensures old(Valid()) ==> Valid()
      ensures lastSweepMs == old(lastSweepMs) && old(tracked) <= tracked <= old(tracked) + {path}
      ensures !answer.InvalidContinuation? && !answer.Exhausted? && IsDeadlineJoin(old(conts), path) ==> path in tracked
      ensures !answer.InvalidContinuation? && !answer.Exhausted? && IsDeadlineJoin(conts, path) ==> path in tracked
      ensures var o := Advance(old(conts)[path].join, a);
              answer == o.answer && sent == o.sent && conts == Put(old(conts), path, o.join)
    {
      hide Fill, Reap, Aged;
      var j := conts[path].join;
      if !j.addressed { return InvalidContinuation, []; }
      if j.remaining.Some? && j.remaining.value <= 0 { return Exhausted, []; }
      NoteJoinPath(path, j.deadline);
      ReapKeepsDeadline(j, a.now, a.nowAge);
      var acted, next, partial := ReapExpiredRound(path, j, a.now, a.nowAge);
      if next.None? { return NoContinuation, partial; }
      FillKeepsDeadline(next.value, a);
      answer, sent := FillSlot(path, next.value, a);
      sent := partial + sent;
      PutTwice(old(conts), path, next.value, Fill(next.value, a).join);
    }

    method AdvanceForward(path: string, t: Trigger) returns (answer: ForwardAnswer)
      requires path in conts && conts[path].ForwardCont?
      modifies this`conts
      ensures old(Valid()) ==> Valid()
      ensures answer == ForwardAnswerOf(old(conts)[path].forward, t)
      ensures var f' := ForwardAfter(old(conts)[path].forward, t);
              conts == if f'.Some? then old(conts)[path := ForwardCont(f'.value)] else old(conts) - {path}
    {
      var f := conts[path].forward;
      if DepthExceeded(Seed(t.bounds)) { return FSuspended; }
      if !f.addressed { return FInvalid; }
      if f.remaining.Some? && f.remaining.value <= 0 { return FExhausted; }
      if t.status >= 400 && f.hasOnError { return FErrorRouted; }
      if !f.merges && f.hasResultField && !f.hasParams { return FInvalidDispatchMode; }
      if f.capability.Missing? { return FMissingCapability; }
      if f.capability.Unresolved? { return FInvalidCapability; }
      if !t.delivered { return FTransportError; }
      if f.remaining.Some? {
        var left := f.remaining.value - 1;
        if left <= 0 { conts := conts - {path}; }
        else { conts := conts[path := ForwardCont(f.(remaining := Some(left)))]; }
      }
      return FDispatched;
    }

    /** Reaps one tracked join, or drops the path if no join with a deadline is there any more. */
    method SweepOneJoin(path: string, now: int, nowAge: int) returns (sent: seq<Request>)
      modifies this`conts, this`tracked
      ensures sent == SweptRequests(old(conts), path, now, nowAge)
      ensures conts == SweptOne(old(conts), path, now, nowAge)
      ensures tracked == if IsDeadlineJoin(old(conts), path) then old(tracked) else old(tracked) - {path}
    {
      if path !in conts { tracked := tracked - {path}; return []; }
      var c := conts[path];
      if !c.JoinCont? { tracked := tracked - {path}; return []; }
      if c.join.deadline.None? { tracked := tracked - {path}; return []; }
      var acted, j';
      acted, j', sent := ReapExpiredRound(path, c.join, now, nowAge);
    }

    /**
     The throttled sweep over all tracked joins.  Each path is reaped at its own clock reading;
     paths that are not tracked are untouched, and the index keeps exactly the deadline joins it had.
     */
    method MaybeSweepJoins(now: int, clock: Clock) returns (swept: bool, sent: map<string, seq<Request>>)
      modifies this
      ensures old(Valid()) ==> Valid()
      ensures swept <==> old(lastSweepMs) == 0 || now - old(lastSweepMs) >= 60000
      ensures !swept ==> conts == old(conts) && tracked == old(tracked) && lastSweepMs == old(lastSweepMs)
      ensures !swept ==> sent == map[]
      ensures swept ==> lastSweepMs == now
      ensures swept ==> tracked == set p | p in old(tracked) && IsDeadlineJoin(old(conts), p)
      ensures swept ==>
                sent == map p | p in old(tracked) :: SweptRequests(old(conts), p, clock(p).0, clock(p).1)
      ensures swept ==> forall p ::
        SameAt(conts, if p in old(tracked) then SweptOne(old(conts), p, clock(p).0, clock(p).1) else old(conts), p)
    {
      hide SweptOne, SweptRequests, Reap;
      if lastSweepMs != 0 && now - lastSweepMs < SWEEP_THROTTLE_MS { return false, map[]; }
      lastSweepMs := now;
      var todo := tracked;
      ghost var conts0, tracked0 := conts, tracked;
      sent := map[];
      while todo != {}
        invariant todo <= tracked0
        invariant lastSweepMs == now
        invariant forall p | p in todo || p !in tracked0 :: SameAt(conts, conts0, p)
        invariant forall p | p in tracked0 && p !in todo ::
          SameAt(conts, SweptOne(conts0, p, clock(p).0, clock(p).1), p)
        invariant sent == map p | p in tracked0 && p !in todo :: SweptRequests(conts0, p, clock(p).0, clock(p).1)
        invariant tracked == set p | p in tracked0 && (p in todo || IsDeadlineJoin(conts0, p))
      {
        var path :| path in todo;
        todo := todo - {path};
        ghost var before := conts;
        var requests := SweepOneJoin(path, clock(path).0, clock(path).1);
        sent := sent[path := requests];
        SweptAlike(before, conts0, path, clock(path).0, clock(path).1);
        forall p | p != path && (p in todo || p !in tracked0) ensures SameAt(conts, conts0, p) {
          assert SameAt(conts, before, p) && SameAt(before, conts0, p);
        }
        forall p | p in tracked0 && p !in todo ensures SameAt(conts, SweptOne(conts0, p, clock(p).0, clock(p).1), p) {
          assert p != path ==>
            SameAt(conts, before, p) && SameAt(before, SweptOne(conts0, p, clock(p).0, clock(p).1), p);
        }
      }
      if old(Valid()) {
        forall p | p in conts && IsDeadlineJoin(conts, p) ensures p in tracked {
          SweptKeepsDeadline(conts0, p, clock(p).0, clock(p).1);
        }
      }
      return true, sent;
    }
  }

  /** Two stores agree at one path. */
  predicate SameAt(a: Conts, b: Conts, p: string) {
    (p in a <==> p in b) && (p in a ==> a[p] == b[p])
  }

  /** Sweeping one path depends on that path alone and touches no other. */
  lemma SweptAlike(conts: Conts, conts0: Conts, path: string, now: int, nowAge: int)
    requires SameAt(conts, conts0, path)
    ensures SweptRequests(conts, path, now, nowAge) == SweptRequests(conts0, path, now, nowAge)
    ensures IsDeadlineJoin(conts, path) == IsDeadlineJoin(conts0, path)
    ensures SameAt(SweptOne(conts, path, now, nowAge), SweptOne(conts0, path, now, nowAge), path)
    ensures forall p | p != path :: SameAt(SweptOne(conts, path, now, nowAge), conts, p)
  {
  }

  lemma SweptKeepsDeadline(conts: Conts, p: string, now: int, nowAge: int)
    ensures IsDeadlineJoin(SweptOne(conts, p, now, nowAge), p) ==> IsDeadlineJoin(conts, p)
  {
  }

  /**
   After an unthrottled sweep whose clock does not run backwards, no tracked join with expected
   slots is still incomplete past its deadline at the time it was looked at.
   */
  method SweepLeavesNothingDue(peer: Peer, now: int, clock: Clock)
    requires peer.lastSweepMs == 0 || now - peer.lastSweepMs >= 60000
    requires forall p :: clock(p).1 >= clock(p).0
    requires forall p | p in peer.tracked && IsDeadlineJoin(peer.conts, p) :: peer.conts[p].join.deadline.value > 0
    modifies peer
    ensures old(peer.Valid()) ==> peer.Valid()
    ensures forall p | p in old(peer.tracked) && p in peer.conts && IsDeadlineJoin(peer.conts, p) :: p in peer.tracked
    ensures forall p | p in peer.tracked && p in peer.conts ::
      peer.conts[p].JoinCont? && !Expired(peer.conts[p].join, clock(p).0)
    ensures forall p | p in old(peer.conts) && !IsDeadlineJoin(old(peer.conts), p) ::
      p in peer.conts && peer.conts[p] == old(peer.conts)[p]
  {
    ghost var conts0, tracked0 := peer.conts, peer.tracked;
    var swept, sent := peer.MaybeSweepJoins(now, clock);
    forall p | p in peer.tracked && p in peer.conts
      ensures peer.conts[p].JoinCont? && !Expired(peer.conts[p].join, clock(p).0)
    {
      assert IsDeadlineJoin(conts0, p) && SameAt(peer.conts, SweptOne(conts0, p, clock(p).0, clock(p).1), p);
      ReapedIsNotExpired(conts0[p].join, clock(p).0, clock(p).1);
    }
    forall p | p in conts0 && !IsDeadlineJoin(conts0, p) ensures p in peer.conts && peer.conts[p] == conts0[p] {
      assert SameAt(peer.conts, if p in tracked0 then SweptOne(conts0, p, clock(p).0, clock(p).1) else conts0, p);
    }
  }
}
