/**
 A successful result can hold a limit error: `range` refuses without draining the budget, and `assoc`
 places the refusal without reading it.  Under a larger budget the same program gives another array, so
 budget monotonicity needs that no limit error is minted, not just that the result is no error.
 */
module Exhaustion {
  import opened Values
  import opened Integers
  import opened Materialize
  import opened Evaluator
  import opened BigStep
  import opened BuiltinRules
  import opened Programs

  const ASSOC := BUILTIN_PREFIX + "assoc"

  function Zeros(): Value { Arr([Int(0)]) }

  function AssocRecord(n: nat): map<string, Value> {
    map["index" := Hash(Lit(Int(0))), "value" := Hash(RangeTo(n)), "collection" := Hash(Lit(Zeros()))]
  }

  /** assoc([0], 0, range(n)) */
  function PlacesRange(n: nat): Entity { BuiltinOf(ASSOC, AssocRecord(n)) }

  function PlaceNodes(n: nat): set<Entity> {
    {Lit(Int(0)), Lit(Int(n)), Lit(Zeros()), RangeTo(n)}
  }

  function Refusal(): Value { Error(BUDGET_EXHAUSTED, "range exceeds remaining budget") }

  lemma AssocNamed()
    ensures HasBuiltinPrefix(ASSOC) && BuiltinNamed(ASSOC) == Assoc
  {
    assert ASSOC[|BUILTIN_PREFIX|..] == "assoc";
  }

  lemma AssocKeysInOrder()
    ensures KeyLeq("index", "value") && KeyLeq("index", "collection") && KeyLeq("value", "collection")
  {
    AsciiLength("index");
    AsciiLength("value");
    ShortKeys("index", "collection");
    ShortKeys("value", "collection");
  }

  lemma AssocKeys(n: nat)
    ensures CanonicalKeys(AssocRecord(n).Keys) == ["index", "value", "collection"]
  {
    hide KeyLeq, RangeTo, Lit, CanonicalKeys;
    AssocKeysInOrder();
    KeysInOrder("index", "value", "collection", AssocRecord(n));
  }

  // ---------------------------------------------------------------- with room for the range

  lemma AssocPlaces(c: Ctx, values: Scope, v: Value)
    requires values == map["index" := Int(0), "value" := v, "collection" := Zeros()]
    ensures BuiltinGives(c, Assoc, values, Arr([v]), 0, 0, {})
  {
    hide Error;
    assert Get(Rec(values), "collection") == Zeros() && Get(Rec(values), "index") == Int(0) && values["value"] == v;
    assert [Int(0)][0 := v] == [v];
    assert ApplyAssoc(values) == Arr([v]);
  }

  function PlaceArgs(n: nat): seq<Arg> {
    [LitArg("index", Int(0)), Arg("value", RangeTo(n), Arr(Count(n)), 2 + n, 2, {}), LitArg("collection", Zeros())]
  }

  lemma PlaceArgsGive(c: Ctx, n: nat)
    requires PlaceNodes(n) <= c.nodes && n <= MAX_ARRAY_LENGTH
    ensures forall i | 0 <= i < 3 :: ArgGives(c, map[], PlaceArgs(n)[i])
    ensures TotalCost(PlaceArgs(n)) == 4 + n && MaxNeed(PlaceArgs(n)) == 2 && AllPuts(PlaceArgs(n)) == {}
    ensures Bind(map[], PlaceArgs(n)) == map["index" := Int(0), "value" := Arr(Count(n)), "collection" := Zeros()]
    ensures NamesMatch(["index", "value", "collection"], PlaceArgs(n)) && Supplies(AssocRecord(n), PlaceArgs(n))
  {
    hide ArgGives, Count, RangeTo;
    var a := PlaceArgs(n);
    LitArgGives(c, map[], "index", Int(0));
    LitArgGives(c, map[], "collection", Zeros());
    assert ArgGives(c, map[], a[1]) by { RangeArgNamed(c, n); }
    ThreeArgs(a[0], a[1], a[2]);
  }

  lemma RangeArgNamed(c: Ctx, n: nat)
    requires PlaceNodes(n) <= c.nodes && n <= MAX_ARRAY_LENGTH
    ensures ArgGives(c, map[], Arg("value", RangeTo(n), Arr(Count(n)), 2 + n, 2, {}))
  {
    hide Gives, Count;
    RangeGives(c, map[], n);
  }

  lemma PlacesWithRoom(c: Ctx, n: nat)
    requires PlaceNodes(n) <= c.nodes && n <= MAX_ARRAY_LENGTH
    ensures Gives(c, PlacesRange(n), map[], Arr([Arr(Count(n))]), 5 + n, 3, {})
  {
    hide Gives, ArgGives, BuiltinGives, HasBuiltinPrefix, BuiltinNamed, BuiltinOf, Count, RangeTo, AssocRecord;
    hide PlaceArgs, NamesMatch, Supplies, CanonicalKeys, TotalCost, MaxNeed, AllPuts, Bind;
    AssocNamed();
    AssocKeys(n);
    PlaceArgsGive(c, n);
    var a := PlaceArgs(n);
    assert |a| == 3 by { ThreePlaceArgs(n); }
    AssocPlaces(c.(held := c.held + {}), Bind(map[], a), Arr(Count(n)));
    PlainBuiltinRule(c, map[], ASSOC, a, ["index", "value", "collection"], AssocRecord(n), Arr([Arr(Count(n))]), 0, 0);
  }

  lemma ThreePlaceArgs(n: nat)
    ensures |PlaceArgs(n)| == 3
  {
  }

  // ---------------------------------------------------------------- without

  /** `k` operations later, with a limit error minted on the way. */
  predicate RanTripped(st: State, st': State, k: nat) {
    && st'.ops == st.ops - k && st'.depth == st.depth && st'.tripped
    && st.store <= st'.store && st.encountered <= st'.encountered
  }

  lemma OneOperand(c: Ctx, st: State, a: Arg, rec: map<string, Value>, contained: set<string>)
    requires ArgGives(c, map[], a) && Ready(c, st, a.cost, a.need)
    requires CanonicalKeys(rec.Keys) == [a.name] && a.name in rec && rec[a.name] == Hash(a.expr)
    ensures var r := EvalOperands(MapItems([a.name], rec, contained), false, map[], map[], c.env, st);
            r.out == All(map[a.name := a.value]) && Ran(st, r.st, a.cost)
  {
    hide ArgOk, Ready, EvalOperands, CanonicalKeys;
    assert NamesMatch([a.name], [a]) && Supplies(rec, [a]);
    MapItemsMatch([a.name], rec, contained, [a]);
    AllOk(c, map[], MapItems([a.name], rec, contained), [a]);
    OneArg(a);
    OperandsRule(c, MapItems([a.name], rec, contained), [a], map[], map[], st);
  }

  /** A range that asks for more than what is left is refused, and what is left stays. */
  lemma RangeRefused(c: Ctx, n: nat, st: State)
    requires Lit(Int(n)) in c.nodes && n <= MAX_ARRAY_LENGTH && Ready(c, st, 2, 2) && n > st.ops - 2
    ensures var r := Evaluate(RangeTo(n), map[], c.env, st);
            r.step == Done(Refusal()) && RanTripped(st, r.st, 2)
  {
    hide Evaluate, EvalOperands, Error, ArgGives, BuiltinNamed, HasBuiltinPrefix, Inner, Resolvable, CanonicalKeys,
         ContainedArgs;
    PathsNamed();
    var a := LitArg("n", Int(n));
    LitArgGives(c, map[], "n", Int(n));
    var rec := map["n" := Hash(Lit(Int(n)))];
    CanonicalKeysUnique(rec.Keys, ["n"]);
    ReadyCharged(c, st, 1, 1);
    OneOperand(c, Charged(st), a, rec, ContainedArgs(Range));
    var st1 := EvalOperands(MapItems(["n"], rec, ContainedArgs(Range)), false, map[], map[], c.env, Charged(st)).st;
    BuiltinSteps(RANGE, rec, map[], c.env, Charged(st), map["n" := Int(n)], st1);
    assert Get(Rec(map["n" := Int(n)]), "n") == Int(n);
    DoneTurn(RangeTo(n), map[], c.env, st);
  }

  lemma ThreeOperands(items: seq<Item>, scope: Scope, env: Env, st: State, x: Value, st1: State, y: Value, st2: State,
      z: Value, st3: State)
    requires |items| == 3 && items[0].Item? && items[1].Item? && items[2].Item?
    requires EvalOperand(items[0].ref, items[0].missing, items[0].contained, scope, env, st) ==
      OperandReply(Got(x), st1)
    requires EvalOperand(items[1].ref, items[1].missing, items[1].contained, scope, env, st1) ==
      OperandReply(Got(y), st2)
    requires EvalOperand(items[2].ref, items[2].missing, items[2].contained, scope, env, st2) ==
      OperandReply(Got(z), st3)
    ensures EvalOperands(items, false, map[], scope, env, st) ==
            OperandsReply(All(map[][items[0].name := x][items[1].name := y][items[2].name := z]), st3)
  {
    hide EvalOperand;
    var one, two := items[1..], items[2..];
    assert one[0] == items[1] && one[1..] == two && two[0] == items[2] && two[1..] == [];
    var a0: Scope := map[];
    var a1, a2 := a0[items[0].name := x], a0[items[0].name := x][items[1].name := y];
    var a3 := a2[items[2].name := z];
    assert EvalOperands([], false, a3, scope, env, st3) == OperandsReply(All(a3), st3);
    assert EvalOperands(two, false, a2, scope, env, st2) == EvalOperands([], false, a3, scope, env, st3);
    assert EvalOperands(one, false, a1, scope, env, st1) == EvalOperands(two, false, a2, scope, env, st2);
  }

  lemma RefusedOperand(c: Ctx, n: nat, st: State, missing: string)
    requires PlaceNodes(n) <= c.nodes && n <= MAX_ARRAY_LENGTH && Ready(c, st, 2, 2) && n > st.ops - 2
    ensures var r := EvalOperand(Hash(RangeTo(n)), missing, true, map[], c.env, st);
            r.out == Got(Refusal()) && RanTripped(st, r.st, 2)
  {
    hide Evaluate, Error, RangeTo, Lit;
    RangeRefused(c, n, st);
    assert Resolve(Hash(RangeTo(n)), c.env, st) == Some(RangeTo(n));
  }

  lemma AssocItems(n: nat)
    ensures var items := MapItems(["index", "value", "collection"], AssocRecord(n), ContainedArgs(Assoc));
            && |items| == 3
            && items[0] == Item("index", Hash(Lit(Int(0))), INVALID_EXPRESSION, false)
            && items[1] == Item("value", Hash(RangeTo(n)), INVALID_EXPRESSION, true)
            && items[2] == Item("collection", Hash(Lit(Zeros())), INVALID_EXPRESSION, false)
  {
    hide RangeTo, Lit;
    var rec, contained := AssocRecord(n), ContainedArgs(Assoc);
    assert MapItems([], rec, contained) == [];
    assert ["index", "value", "collection"][1..] == ["value", "collection"];
    assert ["value", "collection"][1..] == ["collection"] && ["collection"][1..] == [];
    assert MapItems(["collection"], rec, contained) ==
      [Item("collection", Hash(Lit(Zeros())), INVALID_EXPRESSION, false)];
    assert MapItems(["value", "collection"], rec, contained)[0] ==
      Item("value", Hash(RangeTo(n)), INVALID_EXPRESSION, true);
  }

  lemma PlacesRefusal(c: Ctx, n: nat, st: State)
    requires PlaceNodes(n) <= c.nodes && n <= MAX_ARRAY_LENGTH && Ready(c, st, 5, 3) && n > st.ops - 4
    ensures var r := Evaluate(PlacesRange(n), map[], c.env, st);
            r.step == Done(Arr([Refusal()])) && RanTripped(st, r.st, 5)
  {
    hide Evaluate, EvalOperand, EvalOperands, Error, ArgOk, BuiltinNamed, HasBuiltinPrefix, Inner, Resolvable;
    hide CanonicalKeys, RangeTo, Lit, AssocRecord, MapItems, ContainedArgs, Refusal;
    AssocNamed();
    AssocKeys(n);
    AssocItems(n);
    var items := MapItems(["index", "value", "collection"], AssocRecord(n), ContainedArgs(Assoc));
    LitArgGives(c, map[], "index", Int(0));
    LitArgGives(c, map[], "collection", Zeros());
    ReadyCharged(c, st, 4, 2);
    OperandRule(c, INVALID_EXPRESSION, false, map[], Charged(st), LitArg("index", Int(0)));
    var r1 := EvalOperand(items[0].ref, INVALID_EXPRESSION, false, map[], c.env, Charged(st));
    ReadyLater(c, Charged(st), r1.st, 1, 3, 2, {});
    RefusedOperand(c, n, r1.st, INVALID_EXPRESSION);
    var r2 := EvalOperand(items[1].ref, INVALID_EXPRESSION, true, map[], c.env, r1.st);
    ReadyTripped(c, r1.st, r2.st);
    OperandRule(c, INVALID_EXPRESSION, false, map[], r2.st, LitArg("collection", Zeros()));
    var r3 := EvalOperand(items[2].ref, INVALID_EXPRESSION, false, map[], c.env, r2.st);
    ThreeOperands(items, map[], c.env, Charged(st), Int(0), r1.st, Refusal(), r2.st, Zeros(), r3.st);
    var values := map["index" := Int(0), "value" := Refusal(), "collection" := Zeros()];
    assert map[]["index" := Int(0)]["value" := Refusal()]["collection" := Zeros()] == values;
    BuiltinSteps(ASSOC, AssocRecord(n), map[], c.env, Charged(st), values, r3.st);
    assert ApplyAssoc(values) == Arr([Refusal()]) by { AssocApplied(values, Refusal()); }
    DoneTurn(PlacesRange(n), map[], c.env, st);
  }

  lemma AssocApplied(values: Scope, v: Value)
    requires values == map["index" := Int(0), "value" := v, "collection" := Zeros()]
    ensures ApplyAssoc(values) == Arr([v])
  {
    hide Error;
    assert Get(Rec(values), "collection") == Zeros() && Get(Rec(values), "index") == Int(0);
    assert [Int(0)][0 := v] == [v];
  }

  lemma ReadyTripped(c: Ctx, st: State, st': State)
    requires Ready(c, st, 3, 2) && RanTripped(st, st', 2)
    ensures Ready(c, st', 1, 2)
  {
  }

  /**
   The same program, from the same state, gives two different arrays under two budgets.  Neither is an
   error; the smaller budget's holds one, and that run has minted it.
   */
  lemma ArrayHoldsExhaustion(env: Env, st: State, n: nat, room: nat)
    requires Resolvable(env, PlaceNodes(n), st) && st.depth >= 3 && n <= MAX_ARRAY_LENGTH
    requires 5 < st.ops < n + 4 && room > 5 + n
    ensures var small := Evaluate(PlacesRange(n), map[], env, st);
            var large := Evaluate(PlacesRange(n), map[], env, st.(ops := room));
            && small.step == Done(Arr([Refusal()])) && IsShortCircuitLimit(Refusal()) && small.st.tripped
            && large.step == Done(Arr([Arr(Count(n))])) && small.step != large.step
            && !IsError(small.step.v) && !IsError(large.step.v)
  {
    hide Evaluate, Count, PlacesRange, PlaceNodes;
    var c := Ctx(env, PlaceNodes(n), {});
    assert Resolvable(env, c.nodes, st.(ops := room)) by { ResolvableAnyBudget(env, c.nodes, st, room); }
    hide Resolvable;
    PlacesRefusal(c, n, st);
    PlacesWithRoom(c, n);
    assert Ready(c, st.(ops := room), 5 + n, 3);
  }

  lemma ResolvableAnyBudget(env: Env, nodes: set<Entity>, st: State, ops: int)
    requires Resolvable(env, nodes, st)
    ensures Resolvable(env, nodes, st.(ops := ops))
  {
    forall e | e in nodes ensures Resolve(Hash(e), env, st.(ops := ops)) == Some(e) {
      assert Resolve(Hash(e), env, st) == Some(e);
    }
  }
}
