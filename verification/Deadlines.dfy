/**
 Join deadlines in terms of the clock readings of the moves: when a round began is read off the run, and
 an incomplete round ends at the first move that looks at it a deadline or more after that.
 */
module Deadlines {
  import opened Joins
  import opened Continuations
  import opened Values

  /** The reading at which a move looks at the round, ... */
  function Looks(m: Move): int {
    match m
    case Arrive(a) => a.now
    case Sweep(now, _) => now
  }

  /** ... and the one it takes after a fire. */
  function Ages(m: Move): int {
    match m
    case Arrive(a) => a.nowAge
    case Sweep(_, nowAge) => nowAge
  }

  /** What a move adds to the log. */
  function Adds(r: Run, m: Move): seq<Event> {
    var log := Step(r, m).log;
    if |r.log| <= |log| then log[|r.log|..] else []
  }

  /** When the round after `events` began: at the reading of the move that ended the last one, else as before. */
  function RoundBegan(began: int, events: seq<Event>, m: Move): int {
    if events == [] then began
    else
      var e := events[|events| - 1];
      if !e.End? then RoundBegan(began, events[..|events| - 1], m)
      else if e.kind.Abandoned? then Looks(m) else Ages(m)
  }

  /** When the current round of a run began, if the first one began at `began`. */
  function Began(began: int, r: Run, moves: seq<Move>): int
    decreases |moves|
  {
    if moves == [] then began
    else Began(RoundBegan(began, Adds(r, moves[0]), moves[0]), Step(r, moves[0]), moves[1..])
  }

  lemma ReapBegins(j: Join, began: int, m: Move)
    requires j.deadline.Some? && j.roundStarted == Some(began)
    ensures var p := Reap(j, Looks(m), Ages(m));
            p.join.Some? ==> p.join.value.deadline == j.deadline &&
                             p.join.value.roundStarted == Some(RoundBegan(began, p.events, m))
  {
  }

  lemma FillBegins(j: Join, began: int, a: Arrival)
    requires j.deadline.Some? && j.roundStarted == Some(began)
    ensures var o := Fill(j, a);
            o.join.Some? ==> o.join.value.deadline == j.deadline &&
                             o.join.value.roundStarted == Some(RoundBegan(began, o.events, Arrive(a)))
  {
    var o := Fill(j, a);
    if |o.events| == 1 { assert o.events[..0] == []; }
  }

  lemma {:induction false} RoundBeganSplit(began: int, es: seq<Event>, fs: seq<Event>, m: Move)
    ensures RoundBegan(began, es + fs, m) == RoundBegan(RoundBegan(began, es, m), fs, m)
    decreases |fs|
  {
    if fs == [] {
      assert es + fs == es;
    } else {
      assert (es + fs)[..|es + fs| - 1] == es + fs[..|fs| - 1];
      RoundBeganSplit(began, es, fs[..|fs| - 1], m);
    }
  }

  lemma AddsIs(j: Join, log: seq<Event>, m: Move)
    ensures Adds(Run(Some(j), log), m) ==
            match m
            case Arrive(a) => Advance(j, a).events
            case Sweep(now, nowAge) => Reap(j, now, nowAge).events
  {
    hide Advance, Reap;
  }

  lemma AddsNothing(log: seq<Event>, m: Move)
    ensures Step(Run(None, log), m) == Run(None, log) && Adds(Run(None, log), m) == []
  {
  }

  /** One move keeps what a deadline join has stored of when its round began. */
  lemma StepBegins(j: Join, log: seq<Event>, began: int, m: Move)
    requires j.deadline.Some? && j.roundStarted == Some(began)
    ensures var r := Step(Run(Some(j), log), m);
            r.join.Some? ==> r.join.value.deadline == j.deadline &&
                             r.join.value.roundStarted == Some(RoundBegan(began, Adds(Run(Some(j), log), m), m))
  {
    hide Adds, RoundBegan, Reap, Fill;
    AddsIs(j, log, m);
    ReapBegins(j, began, m);
    assert RoundBegan(began, [], m) == began by { NoneEnded(began, m); }
    if m.Arrive? {
      var p := Reap(j, m.a.now, m.a.nowAge);
      if p.join.Some? {
        FillBegins(p.join.value, RoundBegan(began, p.events, m), m.a);
        RoundBeganSplit(began, p.events, Fill(p.join.value, m.a).events, m);
      }
    }
  }

  lemma NoneEnded(began: int, m: Move)
    ensures RoundBegan(began, [], m) == began
  {
  }

  lemma {:induction false} RunBegins(r: Run, began: int, deadline: int, moves: seq<Move>)
    requires r.join.Some? ==> r.join.value.deadline == Some(deadline) && r.join.value.roundStarted == Some(began)
    ensures var e := Execute(r, moves);
            e.join.Some? ==> e.join.value.deadline == Some(deadline) &&
                             e.join.value.roundStarted == Some(Began(began, r, moves))
    decreases |moves|
  {
    hide Step, Adds, RoundBegan;
    if moves != [] {
      if r.join.Some? { StepBegins(r.join.value, r.log, began, moves[0]); } else { AddsNothing(r.log, moves[0]); }
      RunBegins(Step(r, moves[0]), RoundBegan(began, Adds(r, moves[0]), moves[0]), deadline, moves[1..]);
    }
  }

  /** Some round ended without all its slots. */
  predicate EndsIncomplete(events: seq<Event>) {
    exists e :: e in events && e.End? && !e.kind.Fired?
  }

  lemma IncompleteIsExpired(j: Join, log: seq<Event>, m: Move)
    ensures EndsIncomplete(Adds(Run(Some(j), log), m)) <==>
            Expired(j, Looks(m)) && (m.Arrive? ==> j.addressed && (j.remaining.Some? ==> j.remaining.value > 0))
    ensures EndsIncomplete(Adds(Run(Some(j), log), m)) ==>
              Adds(Run(Some(j), log), m)[0] ==
              End(if j.onIncomplete.FirePartial? then Partial else Abandoned, j.received)
  {
    hide Adds, Aged, Expired, Turned;
    AddsIs(j, log, m);
    var events := Adds(Run(Some(j), log), m);
    if Expired(j, Looks(m)) && (m.Arrive? ==> j.addressed && (j.remaining.Some? ==> j.remaining.value > 0)) {
      assert events[0] == End(if j.onIncomplete.FirePartial? then Partial else Abandoned, j.received);
    }
  }

  /**
   Over every run of an installed deadline join: a move ends the round incomplete, with what it holds and
   by the policy, if and only if it looks at it a deadline or more after the reading at which the round
   began (that of the install, or of the fire or the abandonment before it), slots are missing, and the
   move is a sweep or the join has executions left.
   */
  lemma EndsAtDeadline(j: Join, installed: int, moves: seq<Move>, m: Move)
    requires InstallAnswerOf(j).InstallDone? && j.deadline.Some?
    requires After(InstalledAs(j, installed), moves).join.Some?
    ensures var start := Run(Some(InstalledAs(j, installed)), []);
            var r := Execute(start, moves);
            var held := RoundValues(j.received, r.log);
            && (EndsIncomplete(Adds(r, m)) <==>
                  && Looks(m) - Began(installed, start, moves) >= j.deadline.value
                  && j.expected != [] && held.Keys != Slots(j.expected)
                  && (m.Sweep? || j.remaining.None? || j.remaining.value > 0))
            && (EndsIncomplete(Adds(r, m)) ==>
                  Adds(r, m)[0] == End(if j.onIncomplete.FirePartial? then Partial else Abandoned, held))
  {
    hide Began, Adds, EndsIncomplete, RoundValues, Execute, Fires, Rounds;
    var j0 := InstalledAs(j, installed);
    var start := Run(Some(j0), []);
    RunBegins(start, installed, j.deadline.value, moves);
    JoinSafety(j0, moves);
    var r := Execute(start, moves);
    assert r.join.value.received == RoundValues(j.received, r.log);
    IncompleteIsExpired(r.join.value, r.log, m);
  }
}
