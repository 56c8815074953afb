/**
 One join continuation: its rounds of slots, the deadline policies, the round-tag guard and its
 finite lifetime, as a state machine whose steps are an arriving slot value and a sweep.
 Each step logs what it accepted and which rounds it ended.
 */
module Joins {
  import opened ChainBounds
  import opened Values

  datatype OnIncomplete = Abandon | FirePartial

  /** The stored dispatch capability: absent, a hash that resolves to nothing, or found. */
  datatype Capability = Missing | Unresolved | Found

  datatype Join = Join(
    addressed: bool,                  // has target and operation
    capability: Capability,
    expected: seq<string>,
    received: map<string, Value>,
    remaining: Option<int>,
    deadline: Option<int>,            // completion_deadline_ms
    onIncomplete: OnIncomplete,
    roundId: Option<int>,
    roundStarted: Option<int>)

  /** A slot value arriving, with the bounds of its request and the clock readings and answer its advance meets. */
  datatype Arrival = Arrival(
    slot: string, value: Value, tag: Option<int>,
    now: int, nowAge: int,
    bounds: Bounds, delivered: bool)

  datatype Answer =
    | InvalidContinuation | Exhausted | NoContinuation | InvalidSlot | StaleRound | AlreadyFilled
    | Suspended | MissingCapability | InvalidCapability | TransportError | Accumulated | Completed

  datatype Kind = Fired | Partial | Abandoned

  datatype Event =
    | Accept(slot: string, value: Value, tag: Option<int>)
    | End(kind: Kind, payload: map<string, Value>)

  /** A dispatch that is made: of a complete or a partial round, with the slots it carries. */
  datatype Request = Request(kind: Kind, payload: map<string, Value>)

  datatype Outcome = Outcome(join: Option<Join>, answer: Answer, events: seq<Event>, sent: seq<Request>)

  datatype Reaped = Reaped(join: Option<Join>, events: seq<Event>, sent: seq<Request>)

  function Slots(expected: seq<string>): set<string> {
    set s | s in expected
  }

  function RoundOf(j: Join): int {
    if j.roundId.Some? then j.roundId.value else 0
  }

  /** The round has run past its deadline with slots missing. */
  predicate Expired(j: Join, now: int) {
    && j.deadline.Some? && j.roundStarted.Some? && j.expected != []
    && j.received.Keys != Slots(j.expected)
    && now - j.roundStarted.value >= j.deadline.value
  }

  /** After any fire: a finite join counts down and goes at zero, otherwise the next round begins. */
  function Aged(j: Join, now: int): Option<Join> {
    if j.remaining.Some? && j.remaining.value - 1 <= 0 then None
    else
      var counted := if j.remaining.Some? then j.(remaining := Some(j.remaining.value - 1)) else j;
      var reset := counted.(received := map[]);
      Some(if j.deadline.Some? then reset.(roundId := Some(RoundOf(j) + 1), roundStarted := Some(now)) else reset)
  }

  /** An abandoned round is dropped and the next begins; the join does not age. */
  function Turned(j: Join, now: int): Join {
    j.(received := map[], roundId := Some(RoundOf(j) + 1), roundStarted := Some(now))
  }

  function Reap(j: Join, now: int, nowAge: int): Reaped {
    if !Expired(j, now) then Reaped(Some(j), [], [])
    else if j.onIncomplete.FirePartial? then Reaped(Aged(j, nowAge), [End(Partial, j.received)], PartialRequest(j))
    else Reaped(Some(Turned(j, now)), [End(Abandoned, j.received)], [])
  }

  /** A fire-partial is best effort: it is made only if it can be, and its answer is not waited upon. */
  function PartialRequest(j: Join): seq<Request> {
    if j.addressed && j.capability.Found? then [Request(Partial, j.received)] else []
  }

  /** The part of an advance after the reap: the slot checks, the accumulation and the fire. */
  function Fill(j: Join, a: Arrival): Outcome {
    if a.slot == "" || a.slot !in j.expected then Outcome(Some(j), InvalidSlot, [], [])
    else if j.deadline.Some? && a.tag.Some? && a.tag != j.roundId then Outcome(Some(j), StaleRound, [], [])
    else if a.slot in j.received then Outcome(Some(j), AlreadyFilled, [], [])
    else
      var filled := j.received[a.slot := a.value];
      if filled.Keys == Slots(j.expected) then
        if Braked(a.bounds) then Outcome(Some(j), Suspended, [], [])
        else if j.capability.Missing? then Outcome(Some(j), MissingCapability, [], [])
        else if j.capability.Unresolved? then Outcome(Some(j), InvalidCapability, [], [])
        else if !a.delivered then Outcome(Some(j), TransportError, [], [Request(Fired, filled)])
        else
          Outcome(Aged(j, a.nowAge), Completed, [Accept(a.slot, a.value, a.tag), End(Fired, filled)],
                  [Request(Fired, filled)])
      else Outcome(Some(j.(received := filled)), Accumulated, [Accept(a.slot, a.value, a.tag)], [])
  }

  function Advance(j: Join, a: Arrival): Outcome {
    if !j.addressed then Outcome(Some(j), InvalidContinuation, [], [])
    else if j.remaining.Some? && j.remaining.value <= 0 then Outcome(Some(j), Exhausted, [], [])
    else
      var r := Reap(j, a.now, a.nowAge);
      match r.join
      case None => Outcome(None, NoContinuation, r.events, r.sent)
      case Some(j') => var o := Fill(j', a); o.(events := r.events + o.events, sent := r.sent + o.sent)
  }

  // ---------------------------------------------------------------- runs

  datatype Move = Arrive(a: Arrival) | Sweep(now: int, nowAge: int)

  datatype Run = Run(join: Option<Join>, log: seq<Event>)

  function Step(r: Run, m: Move): Run {
    match r.join
    case None => r
    case Some(j) =>
      match m
      case Arrive(a) => var o := Advance(j, a); Run(o.join, r.log + o.events)
      case Sweep(now, nowAge) => var p := Reap(j, now, nowAge); Run(p.join, r.log + p.events)
  }

  function Execute(r: Run, moves: seq<Move>): Run
    decreases |moves|
  {
    if moves == [] then r else Execute(Step(r, moves[0]), moves[1..])
  }

  /** A join as install leaves it: in round 0 if it has a deadline; the rest is as the caller gave it. */
  predicate Installed(j: Join) {
    j.deadline.Some? ==> j.deadline.value > 0 && j.roundId == Some(0) && j.roundStarted.Some?
  }

  // ---------------------------------------------------------------- reading the log

  /** The values the current round holds: those since the last round ended, or since install. */
  function RoundValues(base: map<string, Value>, log: seq<Event>): map<string, Value> {
    if log == [] then base
    else
      var e := log[|log| - 1];
      if e.End? then map[] else RoundValues(base, log[..|log| - 1])[e.slot := e.value]
  }

  function Rounds(log: seq<Event>): nat {
    if log == [] then 0 else Rounds(log[..|log| - 1]) + if log[|log| - 1].End? then 1 else 0
  }

  /** Completed and fire-partial rounds; abandoned rounds do not count. */
  function Fires(log: seq<Event>): nat {
    if log == [] then 0
    else
      var e := log[|log| - 1];
      Fires(log[..|log| - 1]) + if e.End? && !e.kind.Abandoned? then 1 else 0
  }

  /** A round that waits for more: some expected slot is missing, and nothing else is held. */
  predicate Waiting(j0: Join, values: map<string, Value>) {
    if j0.expected == [] then values == map[] else values.Keys < Slots(j0.expected)
  }

  /**
   What the log entry `i` must satisfy.  An ended round delivers exactly what it held; a fired one has
   every expected slot, the others do not.  An accepted value fills an expected slot that was free, and
   under a deadline its tag, if any, names the number of rounds ended before it.
   */
  ghost predicate EntryOk(j0: Join, log: seq<Event>, i: nat)
    requires i < |log|
  {
    match log[i]
    case End(kind, payload) =>
      && payload == RoundValues(j0.received, log[..i])
      && (kind.Fired? <==> payload.Keys == Slots(j0.expected))
      && (Waiting(j0, j0.received) && !kind.Fired? ==> Waiting(j0, payload))
    case Accept(slot, _, tag) =>
      && slot in j0.expected && slot !in RoundValues(j0.received, log[..i])
      && (j0.deadline.Some? && tag.Some? ==> tag.value == Rounds(log[..i]))
  }

  /** The bookkeeping a live join keeps besides its slots. */
  predicate CountsOk(j0: Join, j: Join, log: seq<Event>) {
    && (j0.deadline.Some? ==> j.roundId == Some(Rounds(log)) && j.roundStarted.Some?)
    && (j0.remaining.None? ==> j.remaining.None?)
    && (j0.remaining.Some? ==> j.remaining == Some(j0.remaining.value - Fires(log)))
    && (j0.remaining.Some? ==> if j0.remaining.value >= 1 then j.remaining.value >= 1 else Fires(log) == 0)
    && j == j0.(received := j.received, remaining := j.remaining, roundId := j.roundId, roundStarted := j.roundStarted)
  }

  /** What a live join's state says about its log. */
  predicate StateOk(j0: Join, j: Join, log: seq<Event>) {
    && j.received == RoundValues(j0.received, log)
    && (Waiting(j0, j0.received) ==> Waiting(j0, j.received))
    && CountsOk(j0, j, log)
  }

  function AtLeastOne(n: int): int { if n > 1 then n else 1 }

  ghost predicate RunOk(j0: Join, r: Run) {
    && (forall i | 0 <= i < |r.log| :: EntryOk(j0, r.log, i))
    && (match r.join
        case Some(j) => StateOk(j0, j, r.log)
        case None => j0.remaining.Some? && Fires(r.log) == AtLeastOne(j0.remaining.value) &&
                     r.log != [] && r.log[|r.log| - 1].End?)
  }

  // ---------------------------------------------------------------- one step keeps it

  lemma Extended(j0: Join, log: seq<Event>, e: Event)
    requires forall i | 0 <= i < |log| :: EntryOk(j0, log, i)
    requires EntryOk(j0, log + [e], |log|)
    ensures forall i | 0 <= i < |log + [e]| :: EntryOk(j0, log + [e], i)
  {
    forall i | 0 <= i < |log| ensures EntryOk(j0, log + [e], i) {
      assert (log + [e])[..i] == log[..i] && (log + [e])[i] == log[i];
      assert EntryOk(j0, log, i);
    }
  }

  lemma AcceptCounts(base: map<string, Value>, log: seq<Event>, e: Event)
    requires e.Accept?
    ensures var log' := log + [e];
            && RoundValues(base, log') == RoundValues(base, log)[e.slot := e.value]
            && Rounds(log') == Rounds(log) && Fires(log') == Fires(log)
  {
    assert (log + [e])[..|log|] == log;
  }

  lemma EndCounts(base: map<string, Value>, log: seq<Event>, kind: Kind, payload: map<string, Value>)
    ensures var log' := log + [End(kind, payload)];
            && RoundValues(base, log') == map[] && Rounds(log') == Rounds(log) + 1
            && Fires(log') == Fires(log) + if kind.Abandoned? then 0 else 1
  {
    assert (log + [End(kind, payload)])[..|log|] == log;
  }

  lemma NothingHeldWaits(j0: Join)
    ensures Waiting(j0, map[])
  {
    if j0.expected != [] { assert j0.expected[0] in Slots(j0.expected); }
  }

  /** The state after an ended round: an empty next round, or gone with the last execution. */
  lemma NextRound(j0: Join, j: Join, log: seq<Event>, kind: Kind, payload: map<string, Value>, next: Option<Join>,
                  now: int)
    requires CountsOk(j0, j, log)
    requires if kind.Abandoned? then j0.deadline.Some? && next == Some(Turned(j, now)) else next == Aged(j, now)
    ensures var log' := log + [End(kind, payload)];
            match next
            case Some(j') => StateOk(j0, j', log')
            case None => j0.remaining.Some? && Fires(log') == AtLeastOne(j0.remaining.value)
  {
    EndCounts(j0.received, log, kind, payload);
    NothingHeldWaits(j0);
  }

  /** An ended round: the entry is right, and the next state starts an empty round. */
  lemma EndStep(j0: Join, j: Join, log: seq<Event>, kind: Kind, payload: map<string, Value>, next: Option<Join>,
                now: int)
    requires forall i | 0 <= i < |log| :: EntryOk(j0, log, i)
    requires payload == RoundValues(j0.received, log) && (kind.Fired? <==> payload.Keys == Slots(j0.expected))
    requires Waiting(j0, j0.received) && !kind.Fired? ==> Waiting(j0, payload)
    requires CountsOk(j0, j, log)
    requires if kind.Abandoned? then j0.deadline.Some? && next == Some(Turned(j, now)) else next == Aged(j, now)
    ensures RunOk(j0, Run(next, log + [End(kind, payload)]))
  {
    hide StateOk, Aged, Turned, CountsOk, RoundValues, Slots, Fires, Waiting;
    var e := End(kind, payload);
    assert (log + [e])[..|log|] == log && (log + [e])[|log|] == e;
    assert EntryOk(j0, log + [e], |log|);
    Extended(j0, log, e);
    NextRound(j0, j, log, kind, payload, next, now);
  }

  lemma ReapStep(j0: Join, j: Join, log: seq<Event>, now: int, nowAge: int)
    requires RunOk(j0, Run(Some(j), log))
    ensures var p := Reap(j, now, nowAge); RunOk(j0, Run(p.join, log + p.events))
  {
    hide RoundValues, Rounds, Fires, Aged, Turned;
    if Expired(j, now) {
      var partial := j.onIncomplete.FirePartial?;
      EndStep(j0, j, log, if partial then Partial else Abandoned, j.received, Reap(j, now, nowAge).join,
              if partial then nowAge else now);
    } else {
      assert log + [] == log;
    }
  }

  lemma FillStep(j0: Join, j: Join, log: seq<Event>, a: Arrival)
    requires RunOk(j0, Run(Some(j), log)) && (j.remaining.Some? ==> j.remaining.value >= 1)
    ensures var o := Fill(j, a); RunOk(j0, Run(o.join, log + o.events))
  {
    hide RoundValues, Rounds, Fires, Aged;
    var o := Fill(j, a);
    if o.events == [] { assert log + [] == log; }
    else {
      var e := Accept(a.slot, a.value, a.tag);
      var filled := j.received[a.slot := a.value];
      AcceptCounts(j0.received, log, e);
      assert (log + [e])[..|log|] == log && (log + [e])[|log|] == e;
      Extended(j0, log, e);
      if o.answer.Completed? {
        EndStep(j0, j, log + [e], Fired, filled, o.join, a.nowAge);
        assert log + o.events == (log + [e]) + [End(Fired, filled)];
      } else {
        assert filled.Keys == j.received.Keys + {a.slot};
      }
    }
  }

  lemma StepKeeps(j0: Join, r: Run, m: Move)
    requires RunOk(j0, r)
    ensures RunOk(j0, Step(r, m))
  {
    hide RunOk, Reap, Fill;
    if r.join.Some? {
      var j := r.join.value;
      match m
      case Sweep(now, nowAge) => ReapStep(j0, j, r.log, now, nowAge);
      case Arrive(a) =>
        if j.addressed && !(j.remaining.Some? && j.remaining.value <= 0) {
          ReapStep(j0, j, r.log, a.now, a.nowAge);
          var p := Reap(j, a.now, a.nowAge);
          if p.join.Some? {
            ReapLeavesSome(j, a.now, a.nowAge);
            FillStep(j0, p.join.value, r.log + p.events, a);
            var o := Fill(p.join.value, a);
            assert r.log + (p.events + o.events) == (r.log + p.events) + o.events;
          }
        } else {
          assert r.log + [] == r.log;
        }
    }
  }

  lemma ReapLeavesSome(j: Join, now: int, nowAge: int)
    requires j.remaining.Some? ==> j.remaining.value >= 1
    ensures var p := Reap(j, now, nowAge).join;
            p.Some? && p.value.remaining.Some? ==> p.value.remaining.value >= 1
  {
  }

  lemma {:induction false} ExecuteKeeps(j0: Join, r: Run, moves: seq<Move>)
    requires RunOk(j0, r)
    ensures RunOk(j0, Execute(r, moves))
    decreases |moves|
  {
    hide RunOk, Step;
    if moves != [] {
      StepKeeps(j0, r, moves[0]);
      ExecuteKeeps(j0, Step(r, moves[0]), moves[1..]);
    }
  }

  lemma StartOk(j0: Join)
    requires Installed(j0)
    ensures RunOk(j0, Run(Some(j0), []))
  {
  }

  /**
   Safety over every run of an installed join, whatever values and count it was installed with: what
   `RunOk` says of slots, payloads, round tags, round numbers and the lifetime holds after any sequence
   of arrivals and sweeps.
   */
  lemma JoinSafety(j0: Join, moves: seq<Move>)
    requires Installed(j0)
    ensures RunOk(j0, Execute(Run(Some(j0), []), moves))
  {
    hide RunOk;
    StartOk(j0);
    ExecuteKeeps(j0, Run(Some(j0), []), moves);
  }

  /** The state after a run from install. */
  function After(j0: Join, moves: seq<Move>): Run {
    Execute(Run(Some(j0), []), moves)
  }

  /** The join is waiting, if it is still there. */
  predicate LiveWaits(j0: Join, r: Run) {
    r.join.Some? ==> Waiting(j0, r.join.value.received)
  }

  /**
   The stored slots are a proper subset of the expected ones, in every state of every run, exactly when
   they are at install.
   */
  lemma WaitsIffInstalledWaiting(j0: Join)
    requires Installed(j0)
    ensures (forall moves :: LiveWaits(j0, After(j0, moves))) <==> Waiting(j0, j0.received)
  {
    if Waiting(j0, j0.received) {
      forall moves ensures LiveWaits(j0, After(j0, moves)) { JoinSafety(j0, moves); }
    } else {
      var none: seq<Move> := [];
      assert After(j0, none) == Run(Some(j0), []);
      assert !LiveWaits(j0, After(j0, none));
    }
  }

  // ---------------------------------------------------------------- conservation

  /** A value in a slot. */
  datatype Held = Held(slot: string, value: Value)

  function Accepted(log: seq<Event>): multiset<Held> {
    if log == [] then multiset{}
    else
      var e := log[|log| - 1];
      Accepted(log[..|log| - 1]) + if e.Accept? then multiset{Held(e.slot, e.value)} else multiset{}
  }

  function Contents(m: map<string, Value>): multiset<Held> {
    multiset(set s | s in m :: Held(s, m[s]))
  }

  /** Everything delivered or dropped by a round that ended. */
  function EndedWith(log: seq<Event>): multiset<Held> {
    if log == [] then multiset{}
    else
      var e := log[|log| - 1];
      EndedWith(log[..|log| - 1]) + if e.End? then Contents(e.payload) else multiset{}
  }

  lemma ContentsAdd(m: map<string, Value>, slot: string, value: Value)
    requires slot !in m
    ensures Contents(m[slot := value]) == Contents(m) + multiset{Held(slot, value)}
  {
    var m' := m[slot := value];
    var before, after := set s | s in m :: Held(s, m[s]), set s | s in m' :: Held(s, m'[s]);
    forall h ensures h in after <==> h in before + {Held(slot, value)} {
      if h in before { assert h.slot in m' && m'[h.slot] == m[h.slot]; }
      if h in after && h.slot != slot { assert h.slot in m && m'[h.slot] == m[h.slot]; }
      if h == Held(slot, value) { assert slot in m'; }
    }
    assert after == before + {Held(slot, value)};
    assert Held(slot, value) !in before;
  }

  /** What the log owes to conservation: ended rounds deliver what they held, accepted slots were free. */
  predicate EntryConserves(base: map<string, Value>, log: seq<Event>, i: nat)
    requires i < |log|
  {
    match log[i]
    case End(_, payload) => payload == RoundValues(base, log[..i])
    case Accept(slot, _, _) => slot !in RoundValues(base, log[..i])
  }

  lemma EmptyContents()
    ensures Contents(map[]) == multiset{}
  {
  }

  lemma LastConserves(base: map<string, Value>, log: seq<Event>)
    requires log != [] && forall i | 0 <= i < |log| :: EntryConserves(base, log, i)
    ensures var n, e := |log| - 1, log[|log| - 1];
            Contents(RoundValues(base, log)) + (if e.End? then Contents(e.payload) else multiset{}) ==
            Contents(RoundValues(base, log[..n])) + (if e.Accept? then multiset{Held(e.slot, e.value)} else multiset{})
  {
    hide Contents;
    var n, e := |log| - 1, log[|log| - 1];
    assert EntryConserves(base, log, n);
    EmptyContents();
    if e.Accept? { ContentsAdd(RoundValues(base, log[..n]), e.slot, e.value); }
  }

  lemma {:induction false} LogConserves(base: map<string, Value>, log: seq<Event>)
    requires forall i | 0 <= i < |log| :: EntryConserves(base, log, i)
    ensures Contents(base) + Accepted(log) == EndedWith(log) + Contents(RoundValues(base, log))
    decreases |log|
  {
    hide Contents, RoundValues;
    if log == [] {
      assert RoundValues(base, []) == base by { NothingLogged(base); }
    } else {
      var prior := log[..|log| - 1];
      forall i | 0 <= i < |prior| ensures EntryConserves(base, prior, i) {
        assert EntryConserves(base, log, i) && prior[..i] == log[..i];
      }
      LogConserves(base, prior);
      LastConserves(base, log);
      var e := log[|log| - 1];
      Rearranged(Contents(base), Accepted(prior), EndedWith(prior), Contents(RoundValues(base, prior)),
                 if e.Accept? then multiset{Held(e.slot, e.value)} else multiset{},
                 if e.End? then Contents(e.payload) else multiset{}, Contents(RoundValues(base, log)));
    }
  }

  lemma Rearranged(base: multiset<Held>, acc: multiset<Held>, ended: multiset<Held>, held: multiset<Held>,
                   taken: multiset<Held>, given: multiset<Held>, held': multiset<Held>)
    requires base + acc == ended + held && held' + given == held + taken
    ensures base + (acc + taken) == (ended + given) + held'
  {
    assert base + (acc + taken) == (base + acc) + taken;
    assert (ended + held) + taken == ended + (held + taken);
    assert ended + (held' + given) == (ended + given) + held';
  }

  lemma NothingLogged(base: map<string, Value>)
    ensures RoundValues(base, []) == base
  {
  }

  /**
   Values are conserved: over any run every value installed or accepted lies, exactly once, in the
   current round or in one completed, fire-partial or abandoned round.
   */
  lemma ValuesConserved(j0: Join, moves: seq<Move>)
    requires Installed(j0)
    ensures var r := Execute(Run(Some(j0), []), moves);
            Contents(j0.received) + Accepted(r.log) ==
            EndedWith(r.log) + (if r.join.Some? then Contents(r.join.value.received) else multiset{})
  {
    hide Contents, Accepted, EndedWith;
    JoinSafety(j0, moves);
    var r := Execute(Run(Some(j0), []), moves);
    forall i | 0 <= i < |r.log| ensures EntryConserves(j0.received, r.log, i) {
      assert EntryOk(j0, r.log, i);
    }
    LogConserves(j0.received, r.log);
    EmptyContents();
    if r.join.None? { assert RoundValues(j0.received, r.log) == map[]; }
  }

  /**
   Which arrivals count: one is accepted exactly when its slot is expected and still free, its tag
   does not name another round, and, when it is the last, the dispatch goes out.  Any other leaves
   the join as it was.
   */
  lemma AcceptedExactly(j: Join, a: Arrival)
    ensures var o := Fill(j, a);
            var free := a.slot != "" && a.slot in j.expected && a.slot !in j.received;
            var stale := j.deadline.Some? && a.tag.Some? && a.tag != j.roundId;
            var last := j.received.Keys + {a.slot} == Slots(j.expected);
            var goes := !Braked(a.bounds) && j.capability.Found? && a.delivered;
            && (o.answer.Accumulated? <==> free && !stale && !last)
            && (o.answer.Completed? <==> free && !stale && last && goes)
            && Accepted(o.events) ==
              (if o.answer.Accumulated? || o.answer.Completed? then multiset{Held(a.slot, a.value)} else multiset{})
            && (!o.answer.Accumulated? && !o.answer.Completed? ==> o.join == Some(j) && o.events == [])
  {
    var o := Fill(j, a);
    var accept := Accept(a.slot, a.value, a.tag);
    assert Accepted([]) == multiset{};
    assert [accept][..0] == [] && Accepted([accept]) == multiset{Held(a.slot, a.value)};
    if o.answer.Completed? {
      assert o.events == [accept, End(Fired, j.received[a.slot := a.value])];
      assert o.events[..1] == [accept];
    }
  }

  lemma {:induction false} AcceptedAppend(a: seq<Event>, b: seq<Event>)
    ensures Accepted(a + b) == Accepted(a) + Accepted(b)
    decreases |b|
  {
    if b == [] {
      assert a + b == a;
    } else {
      assert (a + b)[..|a + b| - 1] == a + b[..|b| - 1];
      AcceptedAppend(a, b[..|b| - 1]);
    }
  }

  /** The value an arrival brings when it is answered as accepted. */
  function TakenBy(j: Join, m: Move): multiset<Held> {
    if m.Arrive? && (Advance(j, m.a).answer.Accumulated? || Advance(j, m.a).answer.Completed?)
    then multiset{Held(m.a.slot, m.a.value)} else multiset{}
  }

  /** The values of all arrivals of a run that were answered as accepted. */
  function Taken(r: Run, moves: seq<Move>): multiset<Held>
    decreases |moves|
  {
    if moves == [] || r.join.None? then multiset{}
    else TakenBy(r.join.value, moves[0]) + Taken(Step(r, moves[0]), moves[1..])
  }

  lemma ReapAcceptsNothing(j: Join, now: int, nowAge: int)
    ensures Accepted(Reap(j, now, nowAge).events) == multiset{}
  {
    var events := Reap(j, now, nowAge).events;
    assert Accepted([]) == multiset{};
    if events != [] { assert events[..0] == []; }
  }

  lemma StepTakes(r: Run, m: Move)
    requires r.join.Some?
    ensures Accepted(Step(r, m).log) == Accepted(r.log) + TakenBy(r.join.value, m)
  {
    hide Fill, Reap, Accepted;
    var j := r.join.value;
    match m
    case Sweep(now, nowAge) =>
      ReapAcceptsNothing(j, now, nowAge);
      AcceptedAppend(r.log, Reap(j, now, nowAge).events);
    case Arrive(a) =>
      var o := Advance(j, a);
      var p := Reap(j, a.now, a.nowAge);
      ReapAcceptsNothing(j, a.now, a.nowAge);
      AcceptedAppend(r.log, o.events);
      if p.join.Some? {
        AcceptedExactly(j, a);
        AcceptedExactly(p.join.value, a);
        AcceptedAppend(p.events, Fill(p.join.value, a).events);
      }
      NothingAccepted();
  }

  lemma NothingAccepted()
    ensures Accepted([]) == multiset{}
  {
  }

  lemma {:induction false} RunTakes(r: Run, moves: seq<Move>)
    ensures Accepted(Execute(r, moves).log) == Accepted(r.log) + Taken(r, moves)
    decreases |moves|
  {
    hide Accepted, Step, TakenBy;
    if moves == [] {
    } else if r.join.None? {
      assert Step(r, moves[0]) == r by { StepOfNone(r, moves[0]); }
      RunTakes(r, moves[1..]);
    } else {
      StepTakes(r, moves[0]);
      RunTakes(Step(r, moves[0]), moves[1..]);
    }
  }

  lemma StepOfNone(r: Run, m: Move)
    requires r.join.None?
    ensures Step(r, m) == r
  {
  }

  /**
   What callers were told matches what the join holds or let go: the values installed and those of all
   arrivals answered as accepted are exactly those in ended rounds and in the current one.
   */
  lemma ArrivalsConserved(j0: Join, moves: seq<Move>)
    requires Installed(j0)
    ensures var r := Execute(Run(Some(j0), []), moves);
            Contents(j0.received) + Taken(Run(Some(j0), []), moves) ==
            EndedWith(r.log) + (if r.join.Some? then Contents(r.join.value.received) else multiset{})
  {
    hide Execute, Accepted, EndedWith, Contents;
    NothingAccepted();
    RunTakes(Run(Some(j0), []), moves);
    ValuesConserved(j0, moves);
  }

  /**
   Lifetime over every run: what remains is what was installed less the fires, a join installed for at
   least one execution goes exactly at the last of them, one installed for none or fewer goes at its
   first fire, and a standing one never goes.
   */
  lemma LifetimeConserved(j0: Join, moves: seq<Move>)
    requires Installed(j0)
    ensures var r := Execute(Run(Some(j0), []), moves);
            if j0.remaining.None? then r.join.Some? && r.join.value.remaining.None?
            else
              && Fires(r.log) <= AtLeastOne(j0.remaining.value)
              && (r.join.None? <==> Fires(r.log) == AtLeastOne(j0.remaining.value))
              && (r.join.Some? ==> r.join.value.remaining == Some(j0.remaining.value - Fires(r.log)))
  {
    JoinSafety(j0, moves);
  }

  /** It has not fired more often than it was installed for. */
  predicate WithinCount(j0: Join, r: Run) {
    j0.remaining.Some? ==> Fires(r.log) <= if j0.remaining.value > 0 then j0.remaining.value else 0
  }

  /** An exhausted join that no sweep can fire. */
  predicate Dormant(j: Join) {
    && j.remaining.Some? && j.remaining.value <= 0
    && (j.deadline.None? || j.onIncomplete.Abandon? || j.expected == [] || j.received.Keys == Slots(j.expected))
  }

  lemma DormantStep(j: Join, log: seq<Event>, m: Move)
    requires Dormant(j)
    ensures var r := Step(Run(Some(j), log), m);
            r.join.Some? && Dormant(r.join.value) && Fires(r.log) == Fires(log)
  {
    assert log + [] == log;
    EndCounts(map[], log, Abandoned, j.received);
  }

  lemma {:induction false} DormantRun(j: Join, log: seq<Event>, moves: seq<Move>)
    requires Dormant(j)
    ensures Fires(Execute(Run(Some(j), log), moves).log) == Fires(log)
    decreases |moves|
  {
    hide Fires, Dormant, Step;
    if moves != [] {
      DormantStep(j, log, moves[0]);
      var r := Step(Run(Some(j), log), moves[0]);
      DormantRun(r.join.value, r.log, moves[1..]);
    }
  }

  /** An exhausted join with a fire-partial policy fires all the same when a sweep finds it expired. */
  lemma ExhaustedFiresPartially(j0: Join)
    requires Installed(j0) && j0.remaining.Some? && j0.remaining.value <= 0
    requires j0.deadline.Some? && j0.onIncomplete.FirePartial? && j0.expected != []
    requires j0.received.Keys != Slots(j0.expected)
    ensures var at := j0.roundStarted.value + j0.deadline.value;
            var r := Execute(Run(Some(j0), []), [Sweep(at, at)]);
            Fires(r.log) == 1 && r.join.None? && !WithinCount(j0, r)
  {
    hide Step, Execute;
    var at := j0.roundStarted.value + j0.deadline.value;
    OneMove(Run(Some(j0), []), Sweep(at, at));
    SweptOut(j0, at);
    EndCounts(map[], [], Partial, j0.received);
  }

  lemma OneMove(r: Run, m: Move)
    ensures Execute(r, [m]) == Step(r, m)
  {
    hide Step;
    assert [m][1..] == [] && Execute(Step(r, m), []) == Step(r, m);
  }

  lemma SweptOut(j: Join, at: int)
    requires Expired(j, at) && j.onIncomplete.FirePartial? && j.remaining.Some? && j.remaining.value <= 1
    ensures Step(Run(Some(j), []), Sweep(at, at)) == Run(None, [] + [End(Partial, j.received)])
  {
  }

  /**
   No run fires a join more often than it was installed for, exactly when it is standing, or installed
   for at least one execution, or no sweep can fire it: it has no deadline, abandons, expects nothing, or
   was installed complete.
   */
  lemma WithinCountIff(j0: Join)
    requires Installed(j0)
    ensures (forall moves :: WithinCount(j0, After(j0, moves))) <==>
            (j0.remaining.Some? && j0.remaining.value <= 0 ==>
               j0.deadline.None? || j0.onIncomplete.Abandon? || j0.expected == []
                 || j0.received.Keys == Slots(j0.expected))
  {
    if j0.remaining.Some? && j0.remaining.value <= 0 {
      if Dormant(j0) {
        forall moves ensures WithinCount(j0, After(j0, moves)) { DormantRun(j0, [], moves); }
      } else {
        ExhaustedFiresPartially(j0);
        var at := j0.roundStarted.value + j0.deadline.value;
        assert !WithinCount(j0, After(j0, [Sweep(at, at)]));
      }
    } else {
      forall moves ensures WithinCount(j0, After(j0, moves)) { LifetimeConserved(j0, moves); }
    }
  }

  /** The dispatches of an arrival: of the round that is full, or of one that has run out and fires what it holds. */
  lemma DispatchesCarry(j: Join, a: Arrival)
    ensures var o := Fill(j, a);
            && (o.sent != [] <==> o.answer.Completed? || o.answer.TransportError?)
            && (o.sent != [] ==> o.sent == [Request(Fired, j.received[a.slot := a.value])] &&
                                 o.sent[0].payload.Keys == Slots(j.expected))
    ensures Reap(j, a.now, a.nowAge).sent ==
            if Expired(j, a.now) && j.onIncomplete.FirePartial? && j.addressed && j.capability.Found?
            then [Request(Partial, j.received)] else []
  {
    hide Expired, Aged;
  }

  /** Why an arrival at a live round is turned away: the first that applies. */
  lemma Rejections(j: Join, a: Arrival)
    ensures var o := Fill(j, a);
            var known := a.slot != "" && exists i :: 0 <= i < |j.expected| && j.expected[i] == a.slot;
            var stale := j.deadline.Some? && a.tag.Some? && a.tag != j.roundId;
            && (o.answer.InvalidSlot? <==> !known)
            && (o.answer.StaleRound? <==> known && stale)
            && (o.answer.AlreadyFilled? <==> known && !stale && a.slot in j.received)
  {
  }

  // ---------------------------------------------------------------- deadlines

  /** A round is never ended by a reap before its deadline, and a join without one is never changed by it. */
  lemma ReapOnlyAtDeadline(j: Join, now: int, nowAge: int)
    ensures Reap(j, now, nowAge) != Reaped(Some(j), [], []) ==>
              j.deadline.Some? && j.roundStarted.Some? && now >= j.roundStarted.value + j.deadline.value
    ensures j.deadline.None? ==> Reap(j, now, nowAge) == Reaped(Some(j), [], [])
  {
  }

  /** After a reap at `now` nothing is left to reap at that time, if the clock did not run backwards meanwhile. */
  lemma ReapedIsNotExpired(j: Join, now: int, nowAge: int)
    requires nowAge >= now && (j.deadline.Some? ==> j.deadline.value > 0)
    ensures var p := Reap(j, now, nowAge); p.join.Some? ==> !Expired(p.join.value, now)
  {
  }

  /** The round of a live join has run out, and its policy is to fire what is there. */
  predicate PartialDue(j: Join, a: Arrival) {
    && j.addressed && (j.remaining.Some? ==> j.remaining.value > 0)
    && Expired(j, a.now) && j.onIncomplete.FirePartial?
  }

  /** Some round was fired, complete or not. */
  predicate SomeFired(events: seq<Event>) {
    exists e :: e in events && e.End? && !e.kind.Abandoned?
  }

  /**
   What the brake does not stop.  An advance past the ceiling fires a round if and only if a fire-partial
   is due, because the reap does not ask the brake; it makes a dispatch if and only if that one can be
   made, and then it makes no other.
   */
  lemma BrakedFiresIffPartialDue(j: Join, a: Arrival)
    requires Braked(a.bounds)
    ensures SomeFired(Advance(j, a).events) <==> PartialDue(j, a)
    ensures Advance(j, a).sent == if PartialDue(j, a) then PartialRequest(j) else []
  {
    var events := Advance(j, a).events;
    hide Aged;
    if PartialDue(j, a) { assert events[0] == End(Partial, j.received); }
  }
}
