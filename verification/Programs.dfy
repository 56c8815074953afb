/**
 Whole programs through the evaluator, for every size of input: a fold, a tail-recursive loop and a
 map with a captured variable.  The loop runs in constant depth however long it is.
 */
module Programs {
  import opened Values
  import opened Integers
  import opened Materialize
  import opened Evaluator
  import opened BigStep
  import opened BuiltinRules

  /** 0 + 1 + ... + (n - 1) */
  function Sum(n: nat): nat {
    if n == 0 then 0 else Sum(n - 1) + (n - 1)
  }

  function VarArg(name: string, x: string, v: Value): Arg { Arg(name, Var(x), v, 1, 1, {}) }
  function LitArg(name: string, v: Value): Arg { Arg(name, Lit(v), v, 1, 1, {}) }

  lemma VarArgGives(c: Ctx, scope: Scope, name: string, x: string)
    requires x in scope && Var(x) in c.nodes && !IsError(scope[x])
    ensures ArgGives(c, scope, VarArg(name, x, scope[x]))
    ensures !IsUintCast(Hash(Var(x)))
  {
    hide Gives;
    VarRule(c, scope, x);
  }

  lemma LitArgGives(c: Ctx, scope: Scope, name: string, v: Value)
    requires Lit(v) in c.nodes && !IsError(v)
    ensures ArgGives(c, scope, LitArg(name, v))
    ensures !IsUintCast(Hash(Lit(v)))
  {
    hide Gives;
    LiteralRule(c, scope, v);
  }

  /** A binary form over operands that store nothing and are no casts. */
  lemma PureBinary(c: Ctx, scope: Scope, t: Type, op: string, l: Arg, r: Arg)
    requires IsBinary(t, op) && ArgGives(c, scope, l) && ArgGives(c, scope, r) && l.puts == r.puts == {}
    requires !IsUintCast(Hash(l.expr)) && !IsUintCast(Hash(r.expr))
    ensures Gives(c, Binary(t, op, l.expr, r.expr), scope, BinaryValue(t, op, l.value, r.value, false, false),
                  1 + l.cost + r.cost, 1 + BigStep.Max(l.need, r.need), {})
  {
    hide Gives, ArgGives, IsUintCast, BinaryValue;
    assert l.puts + r.puts == {};
    BinaryRule(c, scope, t, op, l, r);
  }

  lemma BindTwo(s: Scope, p: string, q: string, a: Value, b: Value)
    ensures BindAll(s, [p, q], [a, b]) == s[p := a][q := b]
  {
    assert [p, q][1..] == [q] && [a, b][1..] == [b];
    assert BindAll(s[p := a], [q], [b]) == BindAll(s[p := a][q := b], [], []);
  }

  // ---------------------------------------------------------------- sum by fold

  function AddBody(): Entity { Binary(Arithmetic, "add", Var("acc"), Var("x")) }
  function Adder(): Entity { Lam(["acc", "x"], AddBody()) }

  const RANGE := BUILTIN_PREFIX + "range"
  const FOLD := BUILTIN_PREFIX + "fold"
  const MAP := BUILTIN_PREFIX + "map"

  function RangeTo(n: nat): Entity { BuiltinOf(RANGE, map["n" := Hash(Lit(Int(n)))]) }

  /** fold(range(n), lambda(acc, x): acc + x, 0) */
  function SumFold(n: nat): Entity {
    BuiltinOf(FOLD, FoldRecord(n))
  }

  function FoldRecord(n: nat): map<string, Value> {
    map["fn" := Hash(Adder()), "initial" := Hash(Lit(Int(0))), "collection" := Hash(RangeTo(n))]
  }

  function FoldNodes(n: nat): set<Entity> {
    {Adder(), AddBody(), Var("acc"), Var("x"), RangeTo(n), Lit(Int(n)), Lit(Int(0))}
  }

  lemma PathsNamed()
    ensures HasBuiltinPrefix(RANGE) && BuiltinNamed(RANGE) == Range
    ensures HasBuiltinPrefix(FOLD) && BuiltinNamed(FOLD) == Fold
    ensures HasBuiltinPrefix(MAP) && BuiltinNamed(MAP) == Map
  {
    assert RANGE[|BUILTIN_PREFIX|..] == "range";
    assert FOLD[|BUILTIN_PREFIX|..] == "fold";
    assert MAP[|BUILTIN_PREFIX|..] == "map";
  }

  lemma AddGives(c: Ctx, scope: Scope, a: int, x: int)
    requires "acc" in scope && "x" in scope && scope["acc"] == Int(Signed64(a)) && scope["x"] == Int(x)
    requires Var("acc") in c.nodes && Var("x") in c.nodes
    ensures Gives(c, AddBody(), scope, Int(Signed64(a + x)), 3, 2, {})
  {
    hide Gives, Signed64, ArgGives, IsUintCast;
    VarArgGives(c, scope, "left", "acc");
    VarArgGives(c, scope, "right", "x");
    PureBinary(c, scope, Arithmetic, "add", VarArg("left", "acc", scope["acc"]), VarArg("right", "x", scope["x"]));
    RingIs(Signed64(a), x);
    WrapInside(a, x);
  }

  /** `range(n)` as an operand. */
  lemma RangeGives(c: Ctx, scope: Scope, n: nat)
    requires n <= MAX_ARRAY_LENGTH && Lit(Int(n)) in c.nodes
    ensures Gives(c, RangeTo(n), scope, Arr(Count(n)), 2 + n, 2, {})
  {
    hide Gives, ArgGives, BuiltinGives, HasBuiltinPrefix, BuiltinNamed, Count, Bind, TotalCost, MaxNeed, AllPuts,
         BuiltinOf;
    PathsNamed();
    var a := LitArg("n", Int(n));
    LitArgGives(c, scope, "n", Int(n));
    var rec := map["n" := Hash(Lit(Int(n)))];
    CanonicalKeysUnique(rec.Keys, ["n"]);
    OneArg(a);
    RangeRule(c.(held := c.held + {}), map["n" := Int(n)], n);
    PlainBuiltinRule(c, scope, RANGE, [a], ["n"], rec, Arr(Count(n)), n, 0);
  }

  /** The running totals. */
  function Totals(n: nat): seq<Value> {
    seq(n + 1, i requires 0 <= i => Int(Signed64(Sum(i))))
  }

  predicate IsAscii(s: string) {
    forall i | 0 <= i < |s| :: s[i] as int < 0x80
  }

  lemma ShortKeys(k: string, l: string)
    requires |k| < |l| && IsAscii(k) && IsAscii(l)
    ensures KeyLeq(k, l) && k != l
  {
    AsciiLength(k);
    AsciiLength(l);
  }

  lemma AdderFolds(c: Ctx, n: nat, i: nat)
    requires FoldNodes(n) <= c.nodes && i < n
    ensures |Count(n)| == n && |Totals(n)| == n + 1
    ensures FoldsAt(c, AdderClosure(), Count(n), Totals(n), i, 3, 2)
  {
    hide Gives, InvokeGives, Signed64, ClosureOf, AddBody, Count, Totals, MaterializedScope, CaptureMarks,
         IsShortCircuitLimit;
    TotalsAt(n, i);
    var totals := Totals(n);
    var scope := map["acc" := totals[i], "x" := Int(i)];
    AddGives(c, scope, Sum(i), i);
    NothingCaptured();
    assert AddBody().typ.Arithmetic? by { AddBodyType(); }
    BindTwo(map[], "acc", "x", totals[i], Int(i));
    assert map[]["acc" := totals[i]]["x" := Int(i)] == scope;
    InvokeRule(c, ["acc", "x"], AddBody(), map[], [totals[i], Int(i)], totals[i + 1], 3, 2, {});
  }

  lemma AddBodyType()
    ensures AddBody().typ.Arithmetic?
  {
  }

  lemma TotalsAt(n: nat, i: nat)
    requires i < n
    ensures |Totals(n)| == n + 1 && |Count(n)| == n && Count(n)[i] == Int(i)
    ensures Totals(n)[i] == Int(Signed64(Sum(i))) && Totals(n)[i + 1] == Int(Signed64(Sum(i) + i))
    ensures !IsShortCircuitLimit(Totals(n)[i + 1])
  {
    hide Signed64;
  }

  /** A collection builtin on its arguments is its element loop. */
  lemma CollectionBuiltin(b: Builtin, values: Scope, els: seq<Value>, env: Env, st: State)
    requires b.Map? || b.Filter? || b.Fold? || b.GroupBy?
    requires Get(Rec(values), "collection") == Arr(els)
    requires b.Fold? ==> !IsShortCircuitLimit(Get(Rec(values), "initial"))
    ensures EvalBuiltin(b, values, env, st) ==
            Collect(b, Get(Rec(values), "fn"), els, StartOf(b, Get(Rec(values), "initial")), env, st)
  {
    hide Collect, IsShortCircuitLimit, EvalRange, ApplyConcat, ApplyAssoc, Error;
  }

  lemma FirstTotal(n: nat)
    ensures |Count(n)| == n && |Totals(n)| == n + 1 && Totals(n)[0] == Int(0) && !IsShortCircuitLimit(Int(0))
    ensures Totals(n)[n] == Int(Signed64(Sum(n)))
  {
    SignedOfCanonical(0);
  }

  lemma AddsUp(c: Ctx, values: Scope, n: nat)
    requires FoldNodes(n) <= c.nodes
    requires Get(Rec(values), "collection") == Arr(Count(n)) && Get(Rec(values), "initial") == Int(0)
    requires Get(Rec(values), "fn") == AdderClosure()
    ensures BuiltinGives(c, Fold, values, Int(Signed64(Sum(n))), 3 * n, 2, {})
  {
    hide Gives, AdderClosure, Collect, EvalBuiltin, FoldsAt, FoldGives, Resolvable, Signed64, IsShortCircuitLimit, Sum;
    var totals := Totals(n);
    forall i | 0 <= i < n
      ensures FoldsAt(c, AdderClosure(), Count(n), totals, i, 3, 2) && !IsShortCircuitLimit(totals[i + 1]) {
      AdderFolds(c, n, i);
      TotalsAt(n, i);
    }
    FirstTotal(n);
    UniformFold(c, AdderClosure(), Count(n), totals, 3, 2);
    UniformTotals(totals[1..], 3);
    var calls := Uniform(totals[1..], 3);
    forall i | 0 <= i < |calls| ensures !IsShortCircuitLimit(calls[i].out) {
      assert totals[1..][i] == totals[i + 1];
      assert FoldsAt(c, AdderClosure(), Count(n), totals, i, 3, 2);
    }
    forall st | Ready(c, st, 3 * n, 2)
      ensures EndsIn(st, EvalBuiltin(Fold, values, c.env, st), Int(Signed64(Sum(n))), 3 * n, {})
    {
      CollectionBuiltin(Fold, values, Count(n), c.env, st);
      FoldRule(c, AdderClosure(), totals[0], Count(n), calls, 2, st);
    }
  }

  lemma ThreeArgs(x: Arg, y: Arg, z: Arg)
    ensures var args := [x, y, z];
            && TotalCost(args) == x.cost + y.cost + z.cost && AllPuts(args) == x.puts + y.puts + z.puts
            && MaxNeed(args) == BigStep.Max(x.need, BigStep.Max(y.need, z.need))
            && forall acc :: Bind(acc, args) == acc[x.name := x.value][y.name := y.value][z.name := z.value]
  {
    TwoArgs(y, z);
    assert [x, y, z][1..] == [y, z];
  }

  function AdderClosure(): Value { ClosureOf(["acc", "x"], AddBody(), map[]) }

  function FoldArgs(n: nat): seq<Arg> {
    [Arg("fn", Adder(), AdderClosure(), 1, 1, {}), LitArg("initial", Int(0)),
     Arg("collection", RangeTo(n), Arr(Count(n)), 2 + n, 2, {})]
  }

  lemma FoldArgsGive(c: Ctx, n: nat)
    requires FoldNodes(n) <= c.nodes && n <= MAX_ARRAY_LENGTH
    ensures forall i | 0 <= i < 3 :: ArgGives(c, map[], FoldArgs(n)[i])
    ensures TotalCost(FoldArgs(n)) == 4 + n && MaxNeed(FoldArgs(n)) == 2 && AllPuts(FoldArgs(n)) == {}
    ensures Bind(map[], FoldArgs(n)) == map["fn" := AdderClosure(), "initial" := Int(0), "collection" := Arr(Count(n))]
  {
    hide ArgGives, Count, RangeTo, Adder, AdderClosure;
    var a := FoldArgs(n);
    AdderArg(c);
    LitArgGives(c, map[], "initial", Int(0));
    RangeArg(c, map[], n);
    ThreeArgs(a[0], a[1], a[2]);
  }

  /**
   The fold adds up the numbers below n modulo 2^64, for 5 + 4n operations and in depth 3.
   */
  lemma SumByFold(c: Ctx, n: nat)
    requires FoldNodes(n) <= c.nodes && n <= MAX_ARRAY_LENGTH
    ensures Gives(c, SumFold(n), map[], Int(Signed64(Sum(n))), 5 + 4 * n, 3, {})
  {
    hide Gives, ArgGives, BuiltinGives, HasBuiltinPrefix, BuiltinNamed, Count, AdderClosure, Signed64, RangeTo, Adder;
    hide NamesMatch, Supplies, CanonicalKeys, BuiltinOf, Bind, TotalCost, MaxNeed, AllPuts, Sum, FoldArgs, FoldRecord,
         ArgOk;
    PathsNamed();
    FoldArgsGive(c, n);
    FoldArgsNamed(n);
    var a := FoldArgs(n);
    AddsUp(c.(held := c.held + {}), Bind(map[], a), n);
    PlainBuiltinRule(c, map[], FOLD, a, ["fn", "initial", "collection"], FoldRecord(n), Int(Signed64(Sum(n))), 3 * n,
      2);
  }

  lemma FoldArgsNamed(n: nat)
    ensures |FoldArgs(n)| == 3 && CanonicalKeys(FoldRecord(n).Keys) == ["fn", "initial", "collection"]
    ensures NamesMatch(["fn", "initial", "collection"], FoldArgs(n)) && Supplies(FoldRecord(n), FoldArgs(n))
  {
    hide CanonicalKeys, NamesMatch, Supplies, AdderClosure, Adder, RangeTo, Count;
    var a := FoldArgs(n);
    ThreeKeys("fn", "initial", "collection", a[0], a[1], a[2]);
  }

  /** Three arguments whose names have rising lengths, as a record and in canonical order. */
  lemma ThreeKeys(k: string, l: string, m: string, x: Arg, y: Arg, z: Arg)
    requires |k| < |l| < |m| && IsAscii(k) && IsAscii(l) && IsAscii(m) && x.name == k && y.name == l && z.name == m
    ensures var rec := map[k := Hash(x.expr), l := Hash(y.expr), m := Hash(z.expr)];
            CanonicalKeys(rec.Keys) == [k, l, m] && NamesMatch([k, l, m], [x, y, z]) && Supplies(rec, [x, y, z])
  {
    var rec := map[k := Hash(x.expr), l := Hash(y.expr), m := Hash(z.expr)];
    ShortKeys(k, l);
    ShortKeys(k, m);
    ShortKeys(l, m);
    KeysInOrder(k, l, m, map[k := Hash(x.expr), l := Hash(y.expr), m := Hash(z.expr)]);
  }

  lemma KeysInOrder(k: string, l: string, m: string, rec: map<string, Value>)
    requires KeyLeq(k, l) && KeyLeq(k, m) && KeyLeq(l, m) && k != l && k != m && l != m && rec.Keys == {k, l, m}
    ensures CanonicalKeys(rec.Keys) == [k, l, m]
  {
    hide KeyLeq, CanonicalKeys;
    CanonicalKeysUnique(rec.Keys, [k, l, m]);
  }

  lemma AdderArg(c: Ctx)
    requires Adder() in c.nodes
    ensures ArgGives(c, map[], Arg("fn", Adder(), AdderClosure(), 1, 1, {}))
  {
    hide Gives;
    assert CapturePuts(map[]) == {} by { NothingCaptured(); }
    LambdaRule(c, map[], ["acc", "x"], AddBody());
  }

  lemma NothingCaptured()
    ensures CapturePuts(map[]) == {} && CaptureMarks(map[]) == {} && MaterializedScope(map[]) == map[]
  {
  }

  lemma RangeArg(c: Ctx, scope: Scope, n: nat)
    requires n <= MAX_ARRAY_LENGTH && Lit(Int(n)) in c.nodes && RangeTo(n) in c.nodes
    ensures ArgGives(c, scope, Arg("collection", RangeTo(n), Arr(Count(n)), 2 + n, 2, {}))
  {
    hide Gives, Count;
    RangeGives(c, scope, n);
  }

  // ---------------------------------------------------------------- sum by a tail-recursive loop

  function IsZero(): Entity { Binary(Compare, "eq", Var("n"), Lit(Int(0))) }
  function Dec(): Entity { Binary(Arithmetic, "sub", Var("n"), Lit(Int(1))) }
  function Next(): Entity { Binary(Arithmetic, "add", Var("acc"), Dec()) }
  function Again(): Entity {
    CallOf(Var("self"), map["self" := Hash(Var("self")), "n" := Hash(Dec()), "acc" := Hash(Next())])
  }
  function Loop(): Entity { IfThenElse(IsZero(), Var("acc"), Again()) }
  function Summer(): Entity { Lam(["self", "n", "acc"], Loop()) }
  function SummerClosure(): Value { ClosureOf(["self", "n", "acc"], Loop(), map[]) }

  function Start(n: nat): Entity {
    CallOf(Var("f"), map["self" := Hash(Var("f")), "n" := Hash(Lit(Int(n))), "acc" := Hash(Lit(Int(0)))])
  }

  function SummerArg(): Arg { Arg("f", Summer(), SummerClosure(), 1, 1, {}) }

  /**
   let f = lambda(self, n, acc): if n = 0 then acc else self(self, n - 1, acc + (n - 1))
   in f(f, n, 0)
   */
  function SumTail(n: nat): Entity { LetIn([SummerArg()], Start(n)) }

  function LoopNodes(): set<Entity> {
    {Var("self"), Var("n"), Var("acc"), Lit(Int(0)), Lit(Int(1)), IsZero(), Dec(), Next(), Again(), Loop()}
  }

  function TailNodes(n: nat): set<Entity> {
    LoopNodes() + {Summer(), Start(n), Var("f"), Lit(Int(n))}
  }

  /** The scope of one turn of the loop. */
  function TurnScope(n: nat, a: int): Scope {
    map["self" := SummerClosure(), "n" := Int(n), "acc" := Int(Signed64(a))]
  }

  lemma ClosureIsNoError()
    ensures !IsError(SummerClosure())
  {
    NothingCaptured();
    assert MakeClosure(Summer(), map[]).typ.Closure?;
  }

  lemma TurnTypes()
    ensures Loop().typ.If? && Again().typ.Apply? && Dec().typ.Arithmetic? && Next().typ.Arithmetic?
      && IsZero().typ.Compare?
    ensures !IsUintCast(Hash(Dec())) && Var("acc").typ.LookupScope?
  {
  }

  function DecArg(name: string, n: nat): Arg { Arg(name, Dec(), Int(n - 1), 3, 2, {}) }

  lemma DecGives(c: Ctx, n: nat, a: int, name: string)
    requires LoopNodes() <= c.nodes && 0 < n < HALF
    ensures ArgGives(c, TurnScope(n, a), DecArg(name, n))
  {
    hide Gives, Signed64, SummerClosure, Again, Next, Loop, IsZero;
    var s := TurnScope(n, a);
    TurnTypes();
    assert ArgGives(c, s, VarArg("left", "n", s["n"])) && !IsUintCast(Hash(Var("n")))
      by { VarArgGives(c, s, "left", "n"); }
    LitArgGives(c, s, "right", Int(1));
    PureBinary(c, s, Arithmetic, "sub", VarArg("left", "n", s["n"]), LitArg("right", Int(1)));
    RingIs(n, 1);
    SignedOfCanonical(n - 1);
  }

  lemma NextGives(c: Ctx, n: nat, a: int)
    requires LoopNodes() <= c.nodes && 0 < n < HALF
    ensures ArgGives(c, TurnScope(n, a), Arg("acc", Next(), Int(Signed64(a + (n - 1))), 5, 3, {}))
  {
    hide Gives, Signed64, SummerClosure, Again, Dec, Loop, IsZero;
    var s := TurnScope(n, a);
    TurnTypes();
    VarArgGives(c, s, "left", "acc");
    DecGives(c, n, a, "right");
    PureBinary(c, s, Arithmetic, "add", VarArg("left", "acc", s["acc"]), DecArg("right", n));
    RingIs(Signed64(a), n - 1);
    WrapInside(a, n - 1);
  }

  lemma ZeroGives(c: Ctx, n: nat, a: int)
    requires LoopNodes() <= c.nodes && n < HALF
    ensures ArgGives(c, TurnScope(n, a), Arg("condition", IsZero(), Bool(n == 0), 3, 2, {}))
  {
    hide Gives, Signed64, SummerClosure, Again, Dec, Next, Loop;
    var s := TurnScope(n, a);
    TurnTypes();
    assert ArgGives(c, s, VarArg("left", "n", s["n"])) && !IsUintCast(Hash(Var("n")))
      by { VarArgGives(c, s, "left", "n"); }
    LitArgGives(c, s, "right", Int(0));
    PureBinary(c, s, Compare, "eq", VarArg("left", "n", s["n"]), LitArg("right", Int(0)));
    assert BinaryValue(Compare, "eq", Int(n), Int(0), false, false) == Bool(n == 0) by { EqualInts(n, 0); }
  }

  lemma EqualInts(m: int, n: int)
    requires Canonical(m) && Canonical(n)
    ensures ApplyCompare(Str("eq"), Int(m), Int(n), false, false) == Bool(m == n)
  {
    hide Error;
    SignedOfCanonical(m);
    SignedOfCanonical(n);
    assert OperandInt(m, false) == m && OperandInt(n, false) == n;
    assert (m as real == n as real) <==> m == n;
  }

  /** The arguments of the recursive call. */
  function AgainArgs(n: nat, a: int): seq<Arg> {
    [VarArg("self", "self", SummerClosure()), DecArg("n", n), Arg("acc", Next(), Int(Signed64(a + (n - 1))), 5, 3, {})]
  }

  lemma AgainArgsGive(c: Ctx, n: nat, a: int)
    requires LoopNodes() <= c.nodes && 0 < n < HALF
    ensures |AgainArgs(n, a)| == 3 && forall i | 0 <= i < 3 :: ArgGives(c, TurnScope(n, a), AgainArgs(n, a)[i])
    ensures TotalCost(AgainArgs(n, a)) == 9 && MaxNeed(AgainArgs(n, a)) == 3 && AllPuts(AgainArgs(n, a)) == {}
    ensures Bind(map[], AgainArgs(n, a)) == TurnScope(n - 1, a + (n - 1))
    ensures NamesMatch(["self", "n", "acc"], AgainArgs(n, a))
    ensures Supplies(map["self" := Hash(Var("self")), "n" := Hash(Dec()), "acc" := Hash(Next())], AgainArgs(n, a))
  {
    hide ArgGives, SummerClosure, Signed64, Dec, Next;
    var s, args := TurnScope(n, a), AgainArgs(n, a);
    ClosureIsNoError();
    VarArgGives(c, s, "self", "self") by { hide Again, Loop, IsZero; }
    DecGives(c, n, a, "n");
    NextGives(c, n, a);
    ThreeArgs(args[0], args[1], args[2]);
  }

  /** The loop adds up what is left, for 15 operations a turn and in the same depth at every turn. */
  lemma {:induction false} LoopGives(c: Ctx, n: nat, a: int)
    requires LoopNodes() <= c.nodes && n < HALF
    ensures Gives(c, Loop(), TurnScope(n, a), Int(Signed64(a + Sum(n))), 5 + 15 * n, 4, {})
    decreases n
  {
    hide Gives, ArgGives, Signed64, SummerClosure, IsZero, Again, Dec, Next, TurnScope, AgainArgs, NamesMatch,
         Supplies, TotalCost, MaxNeed, AllPuts, Bind;
    var s := TurnScope(n, a);
    var cond := Arg("condition", IsZero(), Bool(n == 0), 3, 2, {});
    ZeroGives(c, n, a);
    TurnTypes();
    assert c.(held := c.held + {}) == c;
    if n == 0 {
      TurnAcc(c, a);
      GivesWithin(c, Var("acc"), s, Int(Signed64(a)), 1, 1, 4, {});
      IfRule(c, s, cond, Var("acc"), Again(), Int(Signed64(a)), 1, 4, {});
    } else {
      LoopGives(c, n - 1, a + (n - 1));
      AgainGives(c, n, a, Int(Signed64(a + Sum(n))), 5 + 15 * (n - 1));
      IfRule(c, s, cond, Var("acc"), Again(), Int(Signed64(a + Sum(n))), 11 + (5 + 15 * (n - 1)), 4, {});
    }
  }

  lemma TurnAcc(c: Ctx, a: int)
    ensures Gives(c, Var("acc"), TurnScope(0, a), Int(Signed64(a)), 1, 1, {})
  {
    hide Gives, Signed64, SummerClosure;
    VarRule(c, TurnScope(0, a), "acc");
  }

  lemma AgainGives(c: Ctx, n: nat, a: int, v: Value, k: nat)
    requires LoopNodes() <= c.nodes && 0 < n < HALF
    requires Gives(c, Loop(), TurnScope(n - 1, a + (n - 1)), v, k, 4, {})
    ensures Gives(c, Again(), TurnScope(n, a), v, 11 + k, 4, {})
  {
    hide Gives, ArgGives, Signed64, IsZero, Dec, Next, Loop, TurnScope, AgainArgs, NamesMatch, Supplies, TotalCost,
         MaxNeed, AllPuts, Bind, CallOf, ClosureOf;
    var s, args := TurnScope(n, a), AgainArgs(n, a);
    AgainArgsGive(c, n, a);
    NothingCaptured();
    TurnTypes();
    SelfArg(c, n, a);
    assert c.(held := c.held + {}) == c && c.(held := c.held + ({} + AllPuts(args))) == c;
    CallRule(c, s, VarArg("fn", "self", SummerClosure()), ["self", "n", "acc"], Loop(), map[], args,
             map["self" := Hash(Var("self")), "n" := Hash(Dec()), "acc" := Hash(Next())], v, k, 4, {});
  }

  lemma SelfArg(c: Ctx, n: nat, a: int)
    requires LoopNodes() <= c.nodes
    ensures ArgGives(c, TurnScope(n, a), VarArg("fn", "self", SummerClosure()))
  {
    hide ArgGives, Signed64, SummerClosure, Again, Loop, IsZero, Dec, Next;
    ClosureIsNoError();
    VarArgGives(c, TurnScope(n, a), "fn", "self");
  }

  function StartArgs(n: nat): seq<Arg> {
    [VarArg("self", "f", SummerClosure()), LitArg("n", Int(n)), LitArg("acc", Int(0))]
  }

  lemma StartArgsGive(c: Ctx, s: Scope, n: nat)
    requires TailNodes(n) <= c.nodes && s == map["f" := SummerClosure()]
    ensures |StartArgs(n)| == 3 && forall i | 0 <= i < 3 :: ArgGives(c, s, StartArgs(n)[i])
    ensures ArgGives(c, s, VarArg("fn", "f", SummerClosure()))
    ensures TotalCost(StartArgs(n)) == 3 && MaxNeed(StartArgs(n)) == 1 && AllPuts(StartArgs(n)) == {}
    ensures Bind(map[], StartArgs(n)) == TurnScope(n, 0)
    ensures NamesMatch(["self", "n", "acc"], StartArgs(n))
    ensures Supplies(map["self" := Hash(Var("f")), "n" := Hash(Lit(Int(n))), "acc" := Hash(Lit(Int(0)))], StartArgs(n))
  {
    hide ArgGives, SummerClosure, Signed64, Summer, Start, Again, Loop, IsZero, Dec, Next;
    var args := StartArgs(n);
    ClosureIsNoError();
    VarArgGives(c, s, "self", "f");
    VarArgGives(c, s, "fn", "f");
    LitArgGives(c, s, "n", Int(n));
    LitArgGives(c, s, "acc", Int(0));
    ThreeArgs(args[0], args[1], args[2]);
    SignedOfCanonical(0);
  }

  lemma StartGives(c: Ctx, n: nat)
    requires TailNodes(n) <= c.nodes && n < HALF
    ensures Gives(c, Start(n), map["f" := SummerClosure()], Int(Signed64(Sum(n))), 10 + 15 * n, 4, {})
  {
    hide Gives, ArgGives, Signed64, IsZero, Dec, Next, Again, Loop, TurnScope, StartArgs, NamesMatch, Supplies,
         TotalCost, MaxNeed, AllPuts, Bind, CallOf, ClosureOf, Summer;
    var s, args := map["f" := SummerClosure()], StartArgs(n);
    StartArgsGive(c, s, n);
    LoopGives(c, n, 0);
    NothingCaptured();
    TurnTypes();
    assert c.(held := c.held + {}) == c && c.(held := c.held + ({} + AllPuts(args))) == c;
    CallRule(c, s, VarArg("fn", "f", SummerClosure()), ["self", "n", "acc"], Loop(), map[], args,
             map["self" := Hash(Var("f")), "n" := Hash(Lit(Int(n))), "acc" := Hash(Lit(Int(0)))],
             Int(Signed64(0 + Sum(n))), 5 + 15 * n, 4, {});
  }

  /**
   A tail-recursive loop of any length runs in depth 4: it gives the same sum as the fold, for
   12 + 15n operations.
   */
  lemma SumByTailCalls(c: Ctx, n: nat)
    requires TailNodes(n) <= c.nodes && n < HALF
    ensures Gives(c, SumTail(n), map[], Int(Signed64(Sum(n))), 12 + 15 * n, 4, {})
  {
    hide Gives, ArgGives, Signed64, SummerClosure, Summer, Start, TurnScope, LetIn;
    var b := SummerArg();
    SummerArgGives(c);
    StartGives(c, n);
    assert Start(n).typ.Apply? by { StartType(n); }
    assert c.(held := c.held + {}) == c;
    OneLet(c, b);
    LetRule(c, map[], [b], Start(n), Int(Signed64(Sum(n))), 10 + 15 * n, 4, {});
  }

  lemma OneLet(c: Ctx, b: Arg)
    requires ArgGives(c, map[], b) && b.puts == {}
    ensures LetGives(c, map[], [b]) && TotalCost([b]) == b.cost && MaxNeed([b]) == b.need && AllPuts([b]) == {}
    ensures Bind(map[], [b]) == map[b.name := b.value]
  {
    hide ArgGives;
    OneArg(b);
    assert [b][1..] == [];
    assert LetGives(c.(held := c.held + b.puts), map[][b.name := b.value], []);
  }

  lemma StartType(n: nat)
    ensures Start(n).typ.Apply?
  {
  }

  lemma SummerArgGives(c: Ctx)
    requires Summer() in c.nodes
    ensures ArgGives(c, map[], SummerArg())
  {
    hide Gives, Loop;
    NothingCaptured();
    LambdaRule(c, map[], ["self", "n", "acc"], Loop());
  }

  // ---------------------------------------------------------------- map with a captured variable

  function ScaleBody(): Entity { Binary(Arithmetic, "mul", Var("x"), Var("k")) }
  function Scaler(): Entity { Lam(["x"], ScaleBody()) }
  function MapScale(n: nat): Entity { BuiltinOf(MAP, map["fn" := Hash(Scaler()), "collection" := Hash(RangeTo(n))]) }

  function FactorArg(f: int): Arg { LitArg("k", Int(f)) }

  /** let k = f in map(range(n), lambda(x): x * k) */
  function Scale(f: int, n: nat): Entity { LetIn([FactorArg(f)], MapScale(n)) }

  function ScaleNodes(f: int, n: nat): set<Entity> {
    {Scaler(), ScaleBody(), Var("x"), Var("k"), RangeTo(n), Lit(Int(n)), Lit(Int(f)), MapScale(n)}
  }

  function FactorScope(f: int): Scope { map["k" := Int(f)] }

  function ScalerClosure(f: int): Value { ClosureOf(["x"], ScaleBody(), FactorScope(f)) }

  /** The captured variable comes back as it was. */
  lemma FactorCaptured(f: int)
    ensures !CaptureRaises(FactorScope(f)) && MaterializedScope(FactorScope(f)) == FactorScope(f)
    ensures CaptureMarks(FactorScope(f)) <= CapturePuts(FactorScope(f))
  {
    assert FactorScope(f)["k"] == Int(f);
  }

  function Scaled(f: int, n: nat): seq<Value> {
    seq(n, i => Int(Signed64(i * f)))
  }

  lemma ScaleBodyGives(c: Ctx, f: int, i: int)
    requires Var("x") in c.nodes && Var("k") in c.nodes
    ensures Gives(c, ScaleBody(), map["k" := Int(f), "x" := Int(i)], Int(Signed64(i * f)), 3, 2, {})
  {
    hide Gives, Signed64, ArgGives, IsUintCast;
    var s := map["k" := Int(f), "x" := Int(i)];
    VarArgGives(c, s, "left", "x");
    VarArgGives(c, s, "right", "k");
    PureBinary(c, s, Arithmetic, "mul", VarArg("left", "x", s["x"]), VarArg("right", "k", s["k"]));
    RingIs(i, f);
  }

  lemma ScalerScales(c: Ctx, f: int, n: nat, i: nat)
    requires ScaleNodes(f, n) <= c.nodes && CapturePuts(FactorScope(f)) <= c.held && i < n
    ensures InvokeGives(c, ScalerClosure(f), [Count(n)[i]], Scaled(f, n)[i], 3, 2, {})
    ensures !IsShortCircuitLimit(Scaled(f, n)[i])
  {
    hide Gives, InvokeGives, Signed64, ScaleBody, CapturePuts, CaptureMarks, MaterializedScope, Scaler, MapScale,
         RangeTo;
    FactorCaptured(f);
    ScaleBodyGives(c, f, i);
    assert ScaleBody().typ.Arithmetic? by { ScaleBodyType(); }
    assert ["x"][1..] == [] && [Int(i)][1..] == [];
    assert BindAll(FactorScope(f), ["x"], [Int(i)]) == BindAll(FactorScope(f)["x" := Int(i)], [], []);
    assert FactorScope(f)["x" := Int(i)] == map["k" := Int(f), "x" := Int(i)];
    InvokeRule(c, ["x"], ScaleBody(), FactorScope(f), [Int(i)], Int(Signed64(i * f)), 3, 2, {});
  }

  lemma ScaleBodyType()
    ensures ScaleBody().typ.Arithmetic?
  {
  }

  lemma ScalesAll(c: Ctx, values: Scope, f: int, n: nat)
    requires ScaleNodes(f, n) <= c.nodes && CapturePuts(FactorScope(f)) <= c.held
    requires Get(Rec(values), "collection") == Arr(Count(n)) && Get(Rec(values), "fn") == ScalerClosure(f)
    ensures BuiltinGives(c, Map, values, Arr(Scaled(f, n)), 3 * n, 2, {})
  {
    hide Gives, InvokeGives, CallsGive, ScalerClosure, Collect, EvalBuiltin, Resolvable, Signed64, ScaleNodes,
         CapturePuts, IsShortCircuitLimit;
    var outs := Scaled(f, n);
    forall i | 0 <= i < n
      ensures InvokeGives(c, ScalerClosure(f), [Count(n)[i]], outs[i], 3, 2, {}) && !IsShortCircuitLimit(outs[i])
    {
      ScalerScales(c, f, n, i);
    }
    UniformCalls(c, ScalerClosure(f), Count(n), outs, 3, 2);
    UniformTotals(outs, 3);
    assert [] + outs == outs;
    forall st | Ready(c, st, 3 * n, 2) ensures EndsIn(st, EvalBuiltin(Map, values, c.env, st), Arr(outs), 3 * n, {}) {
      CollectionBuiltin(Map, values, Count(n), c.env, st);
      MapRule(c, ScalerClosure(f), Count(n), Uniform(outs, 3), [], 2, st);
    }
  }

  function MapArgs(f: int, n: nat): seq<Arg> {
    [Arg("fn", Scaler(), ScalerClosure(f), 1, 1, CapturePuts(FactorScope(f))),
     Arg("collection", RangeTo(n), Arr(Count(n)), 2 + n, 2, {})]
  }

  lemma MapArgsGive(c: Ctx, f: int, n: nat)
    requires ScaleNodes(f, n) <= c.nodes && n <= MAX_ARRAY_LENGTH
    ensures ArgGives(c, FactorScope(f), MapArgs(f, n)[0]) && ArgGives(c, FactorScope(f), MapArgs(f, n)[1])
  {
    hide Gives, Count, ScaleBody, CapturePuts, RangeTo, MapScale;
    FactorCaptured(f);
    LambdaRule(c, FactorScope(f), ["x"], ScaleBody());
    RangeArg(c, FactorScope(f), n);
  }

  lemma MapScaleGives(c: Ctx, f: int, n: nat)
    requires ScaleNodes(f, n) <= c.nodes && n <= MAX_ARRAY_LENGTH
    ensures Gives(c, MapScale(n), FactorScope(f), Arr(Scaled(f, n)), 4 + 4 * n, 3, CapturePuts(FactorScope(f)))
  {
    hide Gives, ArgGives, BuiltinGives, HasBuiltinPrefix, BuiltinNamed, Count, ScalerClosure, RangeTo, Scaler,
         ScaleBody, CapturePuts, BuiltinOf, Bind, TotalCost, MaxNeed, AllPuts, CanonicalKeys, FactorScope, Scaled,
         NamesMatch, Supplies;
    PathsNamed();
    var a := MapArgs(f, n);
    MapArgsGive(c, f, n);
    MapArgsTotal(f, n);
    var rec := map["fn" := Hash(Scaler()), "collection" := Hash(RangeTo(n))];
    TwoKeys("fn", "collection", a[0], a[1]);
    ScalesAll(c.(held := c.held + AllPuts(a)), Bind(map[], a), f, n);
    PlainBuiltinRule(c, FactorScope(f), MAP, a, ["fn", "collection"], rec, Arr(Scaled(f, n)), 3 * n, 2);
  }

  lemma MapArgsTotal(f: int, n: nat)
    ensures var a := MapArgs(f, n);
            && TotalCost(a) == 3 + n && MaxNeed(a) == 2 && AllPuts(a) == CapturePuts(FactorScope(f))
            && Bind(map[], a) == map["fn" := ScalerClosure(f), "collection" := Arr(Count(n))]
  {
    hide Count, ScalerClosure, RangeTo, Scaler, CapturePuts, FactorScope;
    var a := MapArgs(f, n);
    TwoArgs(a[0], a[1]);
    assert [a[0], a[1]] == a;
    assert AllPuts(a) == CapturePuts(FactorScope(f)) + {};
  }

  lemma TwoKeys(k: string, l: string, x: Arg, y: Arg)
    requires |k| < |l| && IsAscii(k) && IsAscii(l) && x.name == k && y.name == l
    ensures var rec := map[k := Hash(x.expr), l := Hash(y.expr)];
            CanonicalKeys(rec.Keys) == [k, l] && NamesMatch([k, l], [x, y]) && Supplies(rec, [x, y])
  {
    ShortKeys(k, l);
    hide KeyLeq, CanonicalKeys;
    CanonicalKeysUnique(map[k := Hash(x.expr), l := Hash(y.expr)].Keys, [k, l]);
  }

  /** A mapped closure sees the variable it captured: element i becomes i times the factor. */
  lemma ScaleByMap(c: Ctx, f: int, n: nat)
    requires ScaleNodes(f, n) <= c.nodes && n <= MAX_ARRAY_LENGTH
    ensures Gives(c, Scale(f, n), map[], Arr(Scaled(f, n)), 6 + 4 * n, 3, {})
  {
    hide Gives, ArgGives, MapScale, RangeTo, Scaler, ScaleBody, CapturePuts, LetIn, Scaled;
    var b := FactorArg(f);
    LitArgGives(c, map[], "k", Int(f));
    OneLet(c, b);
    assert MapScale(n).typ.Apply? by { MapScaleType(n); }
    assert c.(held := c.held + {}) == c;
    MapScaleGives(c, f, n);
    FewerPuts(c, MapScale(n), FactorScope(f), Arr(Scaled(f, n)), 4 + 4 * n, 3, CapturePuts(FactorScope(f)));
    LetRule(c, map[], [b], MapScale(n), Arr(Scaled(f, n)), 4 + 4 * n, 3, {});
  }

  lemma FewerPuts(c: Ctx, e: Entity, scope: Scope, v: Value, k: nat, d: nat, puts: set<Entity>)
    requires Gives(c, e, scope, v, k, d, puts)
    ensures Gives(c, e, scope, v, k, d, {})
  {
    hide Evaluate, Ready;
    forall st | Ready(c, st, k, d) ensures EndsIn(st, Evaluate(e, scope, c.env, st), v, k, {}) {
      assert EndsIn(st, Evaluate(e, scope, c.env, st), v, k, puts);
    }
  }

  lemma MapScaleType(n: nat)
    ensures MapScale(n).typ.Apply?
  {
  }

  // ---------------------------------------------------------------- the two sums agree

  /** In any state with room for both, the fold and the loop evaluate to the same number. */
  lemma FoldAndLoopAgree(env: Env, st: State, n: nat)
    requires n < HALF && Resolvable(env, FoldNodes(n) + TailNodes(n), st)
    requires st.ops > 12 + 15 * n && st.depth >= 4
    ensures Evaluate(SumFold(n), map[], env, st).step == Evaluate(SumTail(n), map[], env, st).step ==
      Done(Int(Signed64(Sum(n))))
    ensures Evaluate(SumFold(n), map[], env, st).st.ops == st.ops - (5 + 4 * n)
    ensures Evaluate(SumTail(n), map[], env, st).st.ops == st.ops - (12 + 15 * n)
  {
    hide Evaluate, FoldNodes, TailNodes, SumFold, SumTail, Signed64, Resolvable;
    var c := Ctx(env, FoldNodes(n) + TailNodes(n), {});
    SumByFold(c, n);
    SumByTailCalls(c, n);
    assert Ready(c, st, 5 + 4 * n, 3) && Ready(c, st, 12 + 15 * n, 4);
  }
}
