/**
 The big-step rules of closures called by builtins, of the builtins themselves and of the forms that
 build and read records.
 */
module BuiltinRules {
  import opened Values
  import opened Integers
  import opened Materialize
  import opened Evaluator
  import opened BigStep

  // ---------------------------------------------------------------- builtins

  /** Calling `fn` on values in hand gives `v` for exactly `k` operations, within depth `d`, storing `puts`. */
  ghost predicate InvokeGives(c: Ctx, fn: Value, vals: seq<Value>, v: Value, k: nat, d: nat, puts: set<Entity>) {
    forall st | Ready(c, st, k, d) :: EndsIn(st, Invoke(fn, vals, c.env, st), v, k, puts)
  }

  /** Calling the closure a lambda made in scope `s` binds the values to its parameters, on top of the
      materialized `s`. */
  lemma InvokeRule(c: Ctx, ps: seq<string>, body: Entity, s: Scope, vals: seq<Value>, v: Value, k: nat, d: nat,
      puts: set<Entity>)
    requires |ps| == |vals| && CaptureMarks(s) <= c.held && body in c.nodes && !body.typ.ErrorValue?
    requires Gives(c, body, BindAll(MaterializedScope(s), ps, vals), v, k, d, puts)
    ensures InvokeGives(c, ClosureOf(ps, body, s), vals, v, k, d, puts)
  {
    hide Evaluate, OpenClosure, ParamNames, ClosureOf, CaptureMarks, MaterializedScope, Resolve, Error, BindAll;
    forall st | Ready(c, st, k, d) ensures EndsIn(st, Invoke(ClosureOf(ps, body, s), vals, c.env, st), v, k, puts) {
      OpenRule(c.env, st, ps, body, s);
      var o := OpenClosure(ClosureOf(ps, body, s), c.env, st);
      ReadyLater(c, st, o.st, 0, k, d, {}) by { hide Resolvable; }
      assert Resolve(Hash(body), c.env, o.st) == Some(body);
      assert EndsIn(o.st, Evaluate(body, BindAll(MaterializedScope(s), ps, vals), c.env, o.st), v, k, puts);
    }
  }

  // ---------------------------------------------------------------- element loops

  /** One call of the closure of a collection builtin: its result, what it costs and what it stores. */
  datatype Call = Call(out: Value, cost: nat, puts: set<Entity>)

  function CallsCost(calls: seq<Call>): nat {
    if calls == [] then 0 else calls[0].cost + CallsCost(calls[1..])
  }

  function CallsPuts(calls: seq<Call>): set<Entity> {
    if calls == [] then {} else calls[0].puts + CallsPuts(calls[1..])
  }

  function Outs(calls: seq<Call>): (r: seq<Value>)
    ensures |r| == |calls|
  {
    if calls == [] then [] else [calls[0].out] + Outs(calls[1..])
  }

  /** Every element's call gives its result; each may rely on what the earlier ones stored. */
  ghost predicate CallsGive(c: Ctx, fn: Value, els: seq<Value>, calls: seq<Call>, d: nat)
    decreases |els|
  {
    |calls| == |els| &&
    (els == [] || (InvokeGives(c, fn, [els[0]], calls[0].out, calls[0].cost, d, calls[0].puts) &&
                   CallsGive(c.(held := c.held + calls[0].puts), fn, els[1..], calls[1..], d)))
  }

  /** The same for a fold, where each call also gets the result of the one before. */
  ghost predicate FoldGives(c: Ctx, fn: Value, acc: Value, els: seq<Value>, calls: seq<Call>, d: nat)
    decreases |els|
  {
    |calls| == |els| &&
    (els == [] || (InvokeGives(c, fn, [acc, els[0]], calls[0].out, calls[0].cost, d, calls[0].puts) &&
                   FoldGives(c.(held := c.held + calls[0].puts), fn, calls[0].out, els[1..], calls[1..], d)))
  }

  /** The state after one element of a collection builtin. */
  function AfterElement(fn: Value, el: Value, acc: Accum, env: Env, st: State): State {
    var r := Invoke(fn, CallValues(acc, el), env, st);
    if r.step.Done? then r.st.(store := r.st.store + AbsorbStores(acc, r.step.v)) else r.st
  }

  lemma CollectUnfold(b: Builtin, fn: Value, els: seq<Value>, acc: Accum, env: Env, st: State, acc': Accum)
    requires els != [] && Invoke(fn, CallValues(acc, els[0]), env, st).step.Done?
    requires Absorb(b, acc, els[0], Invoke(fn, CallValues(acc, els[0]), env, st).step.v) == More(acc')
    ensures Collect(b, fn, els, acc, env, st) ==
      Collect(b, fn, els[1..], acc', env, AfterElement(fn, els[0], acc, env, st))
  {
    hide Invoke, Absorb, AbsorbStores, CallValues;
    var r := Invoke(fn, CallValues(acc, els[0]), env, st);
    assert Collect(b, fn, els, acc, env, st) == CollectRest(b, fn, els, acc, env, r);
  }

  lemma CollectStep(c: Ctx, b: Builtin, fn: Value, els: seq<Value>, acc: Accum, st: State, call: Call, acc': Accum,
      n: nat, d: nat)
    requires els != [] && Ready(c, st, call.cost + n, d)
    requires InvokeGives(c, fn, CallValues(acc, els[0]), call.out, call.cost, d, call.puts)
    requires Absorb(b, acc, els[0], call.out) == More(acc')
    ensures var st1 := AfterElement(fn, els[0], acc, c.env, st);
            && Collect(b, fn, els, acc, c.env, st) == Collect(b, fn, els[1..], acc', c.env, st1)
            && Ready(c.(held := c.held + call.puts), st1, n, d) && Ran(st, st1, call.cost) && call.puts <= st1.store
  {
    hide Invoke, Absorb, AbsorbStores, Resolvable, Collect, CallValues;
    assert EndsIn(st, Invoke(fn, CallValues(acc, els[0]), c.env, st), call.out, call.cost, call.puts);
    CollectUnfold(b, fn, els, acc, c.env, st, acc');
    ReadyLater(c, st, AfterElement(fn, els[0], acc, c.env, st), call.cost, n, d, call.puts);
  }

  /** The rest of a loop after its first element. */
  lemma LoopOn(st: State, st1: State, r: Reply, v: Value, call: Call, rest: seq<Call>)
    requires Ran(st, st1, call.cost) && call.puts <= st1.store && EndsIn(st1, r, v, CallsCost(rest), CallsPuts(rest))
    ensures EndsIn(st, r, v, CallsCost([call] + rest), CallsPuts([call] + rest))
  {
    assert ([call] + rest)[1..] == rest;
  }

  lemma OutsStep(calls: seq<Call>, done: seq<Value>)
    ensures calls == [] ==> done + Outs(calls) == done
    ensures calls != [] ==> (done + [calls[0].out]) + Outs(calls[1..]) == done + Outs(calls)
  {
  }

  /** `map` gives the results in the order of the elements, contained errors in place. */
  lemma {:induction false} MapRule(c: Ctx, fn: Value, els: seq<Value>, calls: seq<Call>, done: seq<Value>, d: nat,
      st: State)
    requires CallsGive(c, fn, els, calls, d) && Ready(c, st, CallsCost(calls), d)
    requires forall i | 0 <= i < |calls| :: !IsShortCircuitLimit(calls[i].out)
    ensures EndsIn(st, Collect(Map, fn, els, Items(done), c.env, st), Arr(done + Outs(calls)), CallsCost(calls),
      CallsPuts(calls))
    decreases |els|
  {
    hide InvokeGives, Collect, IsShortCircuitLimit, Ready, EndsIn, Ran, AfterElement, Outs;
    OutsStep(calls, done);
    if els == [] {
      CollectEnd(Map, fn, Items(done), c.env, st);
    } else {
      var call, rest := calls[0], calls[1..];
      CollectStep(c, Map, fn, els, Items(done), st, call, Items(done + [call.out]), CallsCost(rest), d);
      var st1 := AfterElement(fn, els[0], Items(done), c.env, st);
      MapRule(c.(held := c.held + call.puts), fn, els[1..], rest, done + [call.out], d, st1);
      LoopOn(st, st1, Collect(Map, fn, els, Items(done), c.env, st), Arr(done + Outs(calls)), call, rest);
      assert [call] + rest == calls;
    }
  }

  lemma CollectEnd(b: Builtin, fn: Value, acc: Accum, env: Env, st: State)
    ensures Collect(b, fn, [], acc, env, st) == Reply(Done(Finish(acc)), st)
    ensures EndsIn(st, Collect(b, fn, [], acc, env, st), Finish(acc), 0, {})
  {
  }

  /** The elements whose result is truthy. */
  function Kept(els: seq<Value>, outs: seq<Value>): seq<Value>
    requires |els| == |outs|
  {
    if els == [] then [] else (if Truthy(outs[0]) then [els[0]] else []) + Kept(els[1..], outs[1..])
  }

  lemma KeptStep(els: seq<Value>, calls: seq<Call>, done: seq<Value>)
    requires |els| == |calls|
    ensures els == [] ==> Kept(els, Outs(calls)) == []
    ensures els != [] ==>
      (if Truthy(calls[0].out) then done + [els[0]] else done) + Kept(els[1..], Outs(calls[1..])) ==
        done + Kept(els, Outs(calls))
  {
    hide Truthy;
    if els != [] { assert Outs(calls)[1..] == Outs(calls[1..]); }
  }

  /** `filter` gives the elements whose result is truthy, in order. */
  lemma {:induction false} FilterRule(c: Ctx, fn: Value, els: seq<Value>, calls: seq<Call>, done: seq<Value>, d: nat,
      st: State)
    requires CallsGive(c, fn, els, calls, d) && Ready(c, st, CallsCost(calls), d)
    requires forall i | 0 <= i < |calls| :: !IsError(calls[i].out)
    ensures EndsIn(st, Collect(Filter, fn, els, Items(done), c.env, st), Arr(done + Kept(els, Outs(calls))),
                   CallsCost(calls), CallsPuts(calls))
    decreases |els|
  {
    hide InvokeGives, Collect, IsError, Truthy, Ready, EndsIn, Ran, AfterElement, Kept, Outs;
    KeptStep(els, calls, done);
    if els == [] {
      assert done + Kept(els, Outs(calls)) == done;
      CollectEnd(Filter, fn, Items(done), c.env, st);
    } else {
      var call, rest := calls[0], calls[1..];
      var more := if Truthy(call.out) then done + [els[0]] else done;
      CollectStep(c, Filter, fn, els, Items(done), st, call, Items(more), CallsCost(rest), d);
      var st1 := AfterElement(fn, els[0], Items(done), c.env, st);
      FilterRule(c.(held := c.held + call.puts), fn, els[1..], rest, more, d, st1);
      LoopOn(st, st1, Collect(Filter, fn, els, Items(done), c.env, st), Arr(done + Kept(els, Outs(calls))), call, rest);
      assert [call] + rest == calls;
    }
  }

  /** The last accumulator of a fold. */
  function Last(acc: Value, calls: seq<Call>): Value {
    if calls == [] then acc else calls[|calls| - 1].out
  }

  /** `fold` threads the accumulator through the elements from the left. */
  lemma {:induction false} FoldRule(c: Ctx, fn: Value, acc: Value, els: seq<Value>, calls: seq<Call>, d: nat, st: State)
    requires FoldGives(c, fn, acc, els, calls, d) && Ready(c, st, CallsCost(calls), d)
    requires forall i | 0 <= i < |calls| :: !IsShortCircuitLimit(calls[i].out)
    ensures EndsIn(st, Collect(Fold, fn, els, Folded(acc), c.env, st), Last(acc, calls), CallsCost(calls),
      CallsPuts(calls))
    decreases |els|
  {
    hide InvokeGives, Collect, IsShortCircuitLimit, Ready, EndsIn, Ran, AfterElement;
    if els == [] {
      CollectEnd(Fold, fn, Folded(acc), c.env, st);
    } else {
      var call, rest := calls[0], calls[1..];
      CollectStep(c, Fold, fn, els, Folded(acc), st, call, Folded(call.out), CallsCost(rest), d);
      var st1 := AfterElement(fn, els[0], Folded(acc), c.env, st);
      FoldRule(c.(held := c.held + call.puts), fn, call.out, els[1..], rest, d, st1);
      LoopOn(st, st1, Collect(Fold, fn, els, Folded(acc), c.env, st), Last(acc, calls), call, rest);
      assert [call] + rest == calls;
    }
  }

  // ---------------------------------------------------------------- loops whose calls cost the same

  /** Calls of one cost that store nothing. */
  function Uniform(outs: seq<Value>, k: nat): (calls: seq<Call>)
    ensures |calls| == |outs| && forall i | 0 <= i < |outs| :: calls[i] == Call(outs[i], k, {})
  {
    seq(|outs|, i requires 0 <= i < |outs| => Call(outs[i], k, {}))
  }

  lemma {:induction false} UniformTotals(outs: seq<Value>, k: nat)
    ensures CallsCost(Uniform(outs, k)) == |outs| * k && CallsPuts(Uniform(outs, k)) == {}
      && Outs(Uniform(outs, k)) == outs
  {
    if outs != [] {
      UniformTotals(outs[1..], k);
      assert Uniform(outs, k)[1..] == Uniform(outs[1..], k);
      assert |outs| * k == k + (|outs| - 1) * k;
    }
  }

  lemma {:induction false} UniformCalls(c: Ctx, fn: Value, els: seq<Value>, outs: seq<Value>, k: nat, d: nat)
    requires |outs| == |els| && forall i | 0 <= i < |els| :: InvokeGives(c, fn, [els[i]], outs[i], k, d, {})
    ensures CallsGive(c, fn, els, Uniform(outs, k), d)
    decreases |els|
  {
    hide InvokeGives;
    if els != [] {
      UniformCalls(c, fn, els[1..], outs[1..], k, d);
      assert Uniform(outs, k)[1..] == Uniform(outs[1..], k);
      assert c.(held := c.held + {}) == c;
    }
  }

  /** Element `i` takes the accumulator from `accs[i]` to the next. */
  ghost predicate FoldsAt(c: Ctx, fn: Value, els: seq<Value>, accs: seq<Value>, i: nat, k: nat, d: nat)
    requires i < |els| < |accs|
  {
    InvokeGives(c, fn, [accs[i], els[i]], accs[i + 1], k, d, {})
  }

  lemma {:induction false} UniformFold(c: Ctx, fn: Value, els: seq<Value>, accs: seq<Value>, k: nat, d: nat)
    requires |accs| == |els| + 1 && forall i | 0 <= i < |els| :: FoldsAt(c, fn, els, accs, i, k, d)
    ensures FoldGives(c, fn, accs[0], els, Uniform(accs[1..], k), d)
    ensures Last(accs[0], Uniform(accs[1..], k)) == accs[|els|]
    decreases |els|
  {
    hide InvokeGives;
    if els != [] {
      assert FoldsAt(c, fn, els, accs, 0, k, d);
      forall i | 0 <= i < |els| - 1 ensures FoldsAt(c, fn, els[1..], accs[1..], i, k, d) {
        assert FoldsAt(c, fn, els, accs, i + 1, k, d);
      }
      UniformFold(c, fn, els[1..], accs[1..], k, d);
      assert Uniform(accs[1..], k)[1..] == Uniform(accs[1..][1..], k);
      assert c.(held := c.held + {}) == c;
    }
  }

  // ---------------------------------------------------------------- builtin paths

  /** Applying the builtin at `path` to a record of argument expressions. */
  function BuiltinOf(path: string, args: map<string, Value>): Entity {
    Entity(Apply, Rec(map["path" := Str(path), "operation" := Str("compute"), "args" := Rec(args)]))
  }

  lemma {:induction false} MapItemsMatch(keys: seq<string>, rec: map<string, Value>, contained: set<string>,
      args: seq<Arg>)
    requires NamesMatch(keys, args) && Supplies(rec, args) && forall k | k in keys :: k in rec
    ensures Matches(MapItems(keys, rec, contained), args)
    ensures forall i | 0 <= i < |keys| :: MapItems(keys, rec, contained)[i].contained == (keys[i] in contained)
  {
    if keys != [] {
      MapItemsMatch(keys[1..], rec, contained, args[1..]);
    }
  }

  lemma BuiltinData(path: string, rec: map<string, Value>)
    ensures var e := BuiltinOf(path, rec);
            && e.typ == Apply && e.data.Rec? && Get(e.data, "path") == Str(path)
              && Get(e.data, "operation") == Str("compute")
            && Get(e.data, "capability") == Null && Get(e.data, "resource") == Null && ArgsOf(e) == Some(rec)
  {
    assert Get(BuiltinOf(path, rec).data, "args") == Rec(rec);
  }

  lemma BuiltinSteps(path: string, rec: map<string, Value>, scope: Scope, env: Env, st: State, values: Scope,
      st1: State)
    requires var b := BuiltinNamed(path);
             && HasBuiltinPrefix(path) && !b.Alias?
             && EvalOperands(MapItems(CanonicalKeys(rec.Keys), rec, ContainedArgs(b)), false, map[], scope, env, st) ==
                OperandsReply(All(values), st1)
    ensures Inner(BuiltinOf(path, rec), scope, env, st) == EvalBuiltin(BuiltinNamed(path), values, env, st1)
  {
    hide EvalOperands, EvalBuiltin, BuiltinNamed, HasBuiltinPrefix, MapItems, CanonicalKeys, ContainedArgs, BuiltinOf,
         Error, ArgsOf, EvalAlias;
    BuiltinData(path, rec);
    var e := BuiltinOf(path, rec);
    assert EvalCall(BuiltinNamed(path), rec, scope, env, st) == EvalBuiltin(BuiltinNamed(path), values, env, st1);
    assert EvalApplyHandler(e, scope, env, st) == EvalBuiltin(BuiltinNamed(path), values, env, st1);
    assert EvalApply(e, scope, env, st) == EvalApplyHandler(e, scope, env, st);
  }

  /** What a builtin makes of its argument values. */
  ghost predicate BuiltinGives(c: Ctx, b: Builtin, values: Scope, v: Value, k: nat, d: nat, puts: set<Entity>) {
    forall st | Ready(c, st, k, d) :: EndsIn(st, EvalBuiltin(b, values, c.env, st), v, k, puts)
  }

  /** An argument of a builtin; in a contained position it may be an error. */
  ghost predicate ArgFor(c: Ctx, scope: Scope, path: string, a: Arg) {
    ArgOk(c, scope, a, a.name in ContainedArgs(BuiltinNamed(path)))
  }

  /** A builtin gets its arguments, evaluated in canonical key order; contained ones may be errors. */
  lemma BuiltinRule(c: Ctx, scope: Scope, path: string, args: seq<Arg>, keys: seq<string>, rec: map<string, Value>,
                    v: Value, k: nat, d: nat, puts: set<Entity>)
    requires HasBuiltinPrefix(path) && !BuiltinNamed(path).Alias?
    requires keys == CanonicalKeys(rec.Keys) && NamesMatch(keys, args) && Supplies(rec, args)
    requires forall i | 0 <= i < |args| :: ArgFor(c, scope, path, args[i])
    requires BuiltinGives(c.(held := c.held + AllPuts(args)), BuiltinNamed(path), Bind(map[], args), v, k, d, puts)
    ensures Gives(c, BuiltinOf(path, rec), scope, v, 1 + TotalCost(args) + k, 1 + Max(MaxNeed(args), d),
      AllPuts(args) + puts)
  {
    hide Evaluate, Inner, ArgFor, Ready, EndsIn, HasBuiltinPrefix, BuiltinNamed, BuiltinOf, Supplies, NamesMatch,
         CanonicalKeys, BuiltinGives, TotalCost, MaxNeed, AllPuts, Bind, Gives;
    forall st | Ready(c, st, TotalCost(args) + k, Max(MaxNeed(args), d))
      ensures EndsIn(st, Inner(BuiltinOf(path, rec), scope, c.env, st), v, TotalCost(args) + k, AllPuts(args) + puts)
    {
      BuiltinInner(c, scope, path, args, keys, rec, v, k, d, puts, st);
    }
    ValueForm(c, BuiltinOf(path, rec), scope, v, TotalCost(args) + k, Max(MaxNeed(args), d), AllPuts(args) + puts);
  }

  lemma ArgsOk(c: Ctx, scope: Scope, path: string, args: seq<Arg>, keys: seq<string>, rec: map<string, Value>)
    requires NamesMatch(keys, args) && Supplies(rec, args) && forall k | k in keys :: k in rec
    requires forall i | 0 <= i < |args| :: ArgFor(c, scope, path, args[i])
    ensures var items := MapItems(keys, rec, ContainedArgs(BuiltinNamed(path)));
            Matches(items, args) && forall i | 0 <= i < |args| :: ArgOk(c, scope, args[i], items[i].contained)
  {
    hide ArgOk, BuiltinNamed, ContainedArgs, MapItems;
    MapItemsMatch(keys, rec, ContainedArgs(BuiltinNamed(path)), args);
  }

  lemma BuiltinInner(c: Ctx, scope: Scope, path: string, args: seq<Arg>, keys: seq<string>, rec: map<string, Value>,
                     v: Value, k: nat, d: nat, puts: set<Entity>, st: State)
    requires HasBuiltinPrefix(path) && !BuiltinNamed(path).Alias?
    requires keys == CanonicalKeys(rec.Keys) && NamesMatch(keys, args) && Supplies(rec, args)
    requires forall i | 0 <= i < |args| :: ArgFor(c, scope, path, args[i])
    requires BuiltinGives(c.(held := c.held + AllPuts(args)), BuiltinNamed(path), Bind(map[], args), v, k, d, puts)
    requires Ready(c, st, TotalCost(args) + k, Max(MaxNeed(args), d))
    ensures EndsIn(st, Inner(BuiltinOf(path, rec), scope, c.env, st), v, TotalCost(args) + k, AllPuts(args) + puts)
  {
    hide Evaluate, Inner, EvalOperands, EvalBuiltin, ArgFor, ArgOk, Resolvable, HasBuiltinPrefix, BuiltinNamed,
         ContainedArgs, BuiltinOf, Supplies, NamesMatch, CanonicalKeys, MapItems, Bind, TotalCost, MaxNeed, AllPuts;
    var b := BuiltinNamed(path);
    var items := MapItems(CanonicalKeys(rec.Keys), rec, ContainedArgs(b));
    ArgsOk(c, scope, path, args, keys, rec);
    OperandsRule(c, items, args, map[], scope, st);
    var vs := EvalOperands(items, false, map[], scope, c.env, st);
    BuiltinSteps(path, rec, scope, c.env, st, Bind(map[], args), vs.st);
    ReadyLater(c, st, vs.st, TotalCost(args), k, d, AllPuts(args));
    assert EndsIn(vs.st, EvalBuiltin(b, Bind(map[], args), c.env, vs.st), v, k, puts);
  }

  /** The common case: no argument is an error and the builtin itself stores nothing. */
  lemma PlainBuiltinRule(c: Ctx, scope: Scope, path: string, args: seq<Arg>, keys: seq<string>, rec: map<string, Value>,
                         v: Value, k: nat, d: nat)
    requires HasBuiltinPrefix(path) && !BuiltinNamed(path).Alias?
    requires keys == CanonicalKeys(rec.Keys) && NamesMatch(keys, args) && Supplies(rec, args)
    requires forall i | 0 <= i < |args| :: ArgGives(c, scope, args[i])
    requires BuiltinGives(c.(held := c.held + AllPuts(args)), BuiltinNamed(path), Bind(map[], args), v, k, d, {})
    ensures Gives(c, BuiltinOf(path, rec), scope, v, 1 + TotalCost(args) + k, 1 + Max(MaxNeed(args), d), AllPuts(args))
  {
    hide ArgOk, HasBuiltinPrefix, BuiltinNamed, BuiltinOf, Supplies, NamesMatch, CanonicalKeys, BuiltinGives,
         TotalCost, MaxNeed, AllPuts, Bind, Gives;
    forall i | 0 <= i < |args| ensures ArgFor(c, scope, path, args[i]) {
      GivesIsOk(c, scope, args[i], args[i].name in ContainedArgs(BuiltinNamed(path)));
    }
    assert AllPuts(args) + {} == AllPuts(args);
    BuiltinRule(c, scope, path, args, keys, rec, v, k, d, {});
  }

  /** `range` counts up from zero, one operation an element. */
  lemma RangeRule(c: Ctx, values: Scope, n: nat)
    requires n <= MAX_ARRAY_LENGTH && Get(Rec(values), "n") == Int(n)
    ensures BuiltinGives(c, Range, values, Arr(Count(n)), n, 0, {})
  {
    hide Error;
  }

  /** The first argument of a builtin that gives an error, in canonical key order, is its result. */
  lemma FirstErrorStopsBuiltin(c: Ctx, scope: Scope, path: string, good: seq<Arg>, bad: Arg, rec: map<string, Value>)
    requires HasBuiltinPrefix(path) && !BuiltinNamed(path).Alias?
    requires FailsAfter(MapItems(CanonicalKeys(rec.Keys), rec, ContainedArgs(BuiltinNamed(path))), good, bad)
    requires var items := MapItems(CanonicalKeys(rec.Keys), rec, ContainedArgs(BuiltinNamed(path)));
             forall i | 0 <= i < |good| :: ArgOk(c, scope, good[i], items[i].contained)
    requires ArgFails(c, scope, bad)
    ensures Gives(c, BuiltinOf(path, rec), scope, bad.value, 1 + TotalCost(good) + bad.cost,
      1 + Max(MaxNeed(good), bad.need), {})
  {
    hide Evaluate, Inner, ArgOk, ArgFails, Ready, Gives, FailsAfter, TotalCost, MaxNeed, HasBuiltinPrefix,
         BuiltinNamed, BuiltinOf, CanonicalKeys, MapItems, ContainedArgs;
    var items := MapItems(CanonicalKeys(rec.Keys), rec, ContainedArgs(BuiltinNamed(path)));
    var k, d := TotalCost(good) + bad.cost, Max(MaxNeed(good), bad.need);
    forall st | Ready(c, st, k, d) ensures EndsIn(st, Inner(BuiltinOf(path, rec), scope, c.env, st), bad.value, k, {}) {
      OperandsFail(c, items, good, bad, map[], scope, st);
      BuiltinStops(path, rec, scope, c.env, st, Done(bad.value),
        EvalOperands(items, false, map[], scope, c.env, st).st);
    }
    ValueForm(c, BuiltinOf(path, rec), scope, bad.value, k, d, {});
  }

  lemma BuiltinStops(path: string, rec: map<string, Value>, scope: Scope, env: Env, st: State, step: Step, st1: State)
    requires var b := BuiltinNamed(path);
             && HasBuiltinPrefix(path) && !b.Alias?
             && EvalOperands(MapItems(CanonicalKeys(rec.Keys), rec, ContainedArgs(b)), false, map[], scope, env, st) ==
                OperandsReply(Early(step), st1)
    ensures Inner(BuiltinOf(path, rec), scope, env, st) == Reply(step, st1)
  {
    hide EvalOperands, EvalBuiltin, BuiltinNamed, HasBuiltinPrefix, MapItems, CanonicalKeys, ContainedArgs, BuiltinOf,
         Error, ArgsOf, EvalAlias;
    BuiltinData(path, rec);
    var e := BuiltinOf(path, rec);
    assert EvalCall(BuiltinNamed(path), rec, scope, env, st) == Reply(step, st1);
    assert EvalApplyHandler(e, scope, env, st) == Reply(step, st1);
    assert EvalApply(e, scope, env, st) == EvalApplyHandler(e, scope, env, st);
  }

  // ---------------------------------------------------------------- records

  function ConstructOf(t: string, rec: map<string, Value>): Entity {
    Entity(Construct, Rec(map["entity_type" := Str(t), "fields" := Rec(rec)]))
  }

  function FieldOf(name: string, target: Entity): Entity {
    Entity(Field, Rec(map["name" := Str(name), "entity" := Hash(target)]))
  }

  lemma ConstructRule(c: Ctx, scope: Scope, t: string, args: seq<Arg>, keys: seq<string>, rec: map<string, Value>)
    requires keys == CanonicalKeys(rec.Keys) && NamesMatch(keys, args) && Supplies(rec, args)
    requires forall i | 0 <= i < |args| :: ArgGives(c, scope, args[i])
    ensures Gives(c, ConstructOf(t, rec), scope, Ent(Entity(TypeNamed(t), Rec(Bind(map[], args)))),
                  1 + TotalCost(args), 1 + MaxNeed(args), AllPuts(args))
  {
    hide Gives, ArgGives, CanonicalKeys, NamesMatch, Supplies, TypeNamed, TotalCost, MaxNeed, AllPuts, Bind, Combine;
    hide StrictItems, MapItems, ConstructOf, Matches;
    ConstructData(t, keys, rec, Bind(map[], args));
    MapItemsMatch(keys, rec, {}, args);
    StrictRule(c, scope, ConstructOf(t, rec), MapItems(keys, rec, {}), args,
      Ent(Entity(TypeNamed(t), Rec(Bind(map[], args)))));
  }

  lemma ConstructData(t: string, keys: seq<string>, rec: map<string, Value>, values: Scope)
    requires keys == CanonicalKeys(rec.Keys)
    ensures var e := ConstructOf(t, rec);
            && IsStrict(e.typ) && e.data.Rec? && StrictItems(e) == Some(MapItems(keys, rec, {}))
            && Combine(e, values) == Done(Ent(Entity(TypeNamed(t), Rec(values))))
  {
    hide CanonicalKeys, TypeNamed, ApplyArithmetic, ApplyCompare, ApplyNumericCast, ReadField, MapItems;
    var e := ConstructOf(t, rec);
    assert Get(e.data, "fields") == Rec(rec) && GetOr(e.data, "entity_type", Str("")) == Str(t);
  }

  lemma FieldRule(c: Ctx, scope: Scope, name: string, target: Arg, t: Type, fields: map<string, Value>)
    requires ArgGives(c, scope, target) && target.value == Ent(Entity(t, Rec(fields))) && name in fields
      && target.name == "entity"
    ensures Gives(c, FieldOf(name, target.expr), scope, fields[name], 1 + target.cost, 1 + target.need, target.puts)
  {
    hide Gives, ArgGives, ApplyArithmetic, ApplyCompare, ApplyNumericCast, Error, TypeNamed;
    var e, args := FieldOf(name, target.expr), [target];
    assert Get(e.data, "entity") == Hash(target.expr) && GetOr(e.data, "name", Str("")) == Str(name);
    OneArg(target);
    StrictRule(c, scope, e, [Required(e, "entity")], args, fields[name]);
  }

  lemma {:induction false} BindLast(acc: Scope, args: seq<Arg>, i: nat)
    requires i < |args| && forall j | i < j < |args| :: args[j].name != args[i].name
    ensures args[i].name in Bind(acc, args) && Bind(acc, args)[args[i].name] == args[i].value
    decreases |args|
  {
    if i == 0 {
      BindKeeps(acc[args[0].name := args[0].value], args[1..], args[0].name);
    } else {
      BindLast(acc[args[0].name := args[0].value], args[1..], i - 1);
    }
  }

  lemma {:induction false} BindKeeps(acc: Scope, args: seq<Arg>, x: string)
    requires x in acc && forall j | 0 <= j < |args| :: args[j].name != x
    ensures x in Bind(acc, args) && Bind(acc, args)[x] == acc[x]
    decreases |args|
  {
    if args != [] { BindKeeps(acc[args[0].name := args[0].value], args[1..], x); }
  }

  /** Reading a field of a constructed entity gives the value the field was built from. */
  lemma FieldOfConstruct(c: Ctx, scope: Scope, t: string, args: seq<Arg>, keys: seq<string>, rec: map<string, Value>,
      i: nat)
    requires keys == CanonicalKeys(rec.Keys) && NamesMatch(keys, args) && Supplies(rec, args) && i < |args|
    requires forall j | 0 <= j < |args| :: ArgGives(c, scope, args[j])
    requires ConstructOf(t, rec) in c.nodes && !TypeNamed(t).ErrorValue?
    ensures Gives(c, FieldOf(args[i].name, ConstructOf(t, rec)), scope, args[i].value,
                  2 + TotalCost(args), 2 + MaxNeed(args), AllPuts(args))
  {
    hide Gives, ArgGives, CanonicalKeys, TypeNamed, TotalCost, MaxNeed, AllPuts, Bind, Supplies, NamesMatch, KeyLeq,
         FieldOf;
    ConstructRule(c, scope, t, args, keys, rec);
    DistinctNames(keys, rec, args, i);
    BindLast(map[], args, i);
    var made := Ent(Entity(TypeNamed(t), Rec(Bind(map[], args))));
    var target := Arg("entity", ConstructOf(t, rec), made, 1 + TotalCost(args), 1 + MaxNeed(args), AllPuts(args));
    MadeGives(c, scope, target, t, Bind(map[], args));
    FieldRule(c, scope, args[i].name, target, TypeNamed(t), Bind(map[], args));
  }

  lemma DistinctNames(keys: seq<string>, rec: map<string, Value>, args: seq<Arg>, i: nat)
    requires keys == CanonicalKeys(rec.Keys) && NamesMatch(keys, args) && i < |args|
    ensures forall j | i < j < |args| :: args[j].name != args[i].name
  {
    hide KeyLeq;
    CanonicalKeysSorted(rec.Keys);
    forall j | i < j < |args| ensures args[j].name != args[i].name {
      assert keys[i] == args[i].name && keys[j] == args[j].name;
    }
  }

  lemma MadeGives(c: Ctx, scope: Scope, a: Arg, t: string, fields: map<string, Value>)
    requires a.expr in c.nodes && a.expr.typ.Construct? && Gives(c, a.expr, scope, a.value, a.cost, a.need, a.puts)
    requires a.value == Ent(Entity(TypeNamed(t), Rec(fields))) && !TypeNamed(t).ErrorValue?
    ensures ArgGives(c, scope, a)
  {
    hide Gives, TypeNamed;
  }

  // ---------------------------------------------------------------- inline-equivalent builtins

  predicate IsAlias(form: Type) {
    form.Arithmetic? || form.Compare? || form.Logic? || form.Field? || form.Construct?
  }

  function AliasPath(form: Type): string {
    BUILTIN_PREFIX +
    (if form.Arithmetic? then "arithmetic" else if form.Compare? then "compare" else if form.Logic? then "logic"
     else if form.Field? then "field" else "construct")
  }

  lemma AliasNamed(form: Type)
    requires IsAlias(form)
    ensures HasBuiltinPrefix(AliasPath(form)) && BuiltinNamed(AliasPath(form)) == Alias(form)
  {
    var name := AliasPath(form)[|BUILTIN_PREFIX|..];
    assert name == if form.Arithmetic? then "arithmetic" else if form.Compare? then "compare"
                   else if form.Logic? then "logic" else if form.Field? then "field" else "construct";
  }

  /** The builtin form of an inline expression: what the expression holds as a plain string is an argument too. */
  function AliasOf(form: Type, rec: map<string, Value>): Entity {
    BuiltinOf(AliasPath(form), rec)
  }

  /** The inline expression, with the string `o` in the place of that argument. */
  function InlineOf(form: Type, o: string, rec: map<string, Value>): Entity {
    if form.Construct? then ConstructOf(o, rec - {"entity_type"})
    else Entity(form, Rec(rec[ScalarName(form) := Str(o)]))
  }

  /** The inline expressions are the forms the other rules are about. */
  lemma InlineForms(op: Entity, o: string, left: Entity, right: Entity)
    ensures forall t: Type | t.Arithmetic? || t.Compare? || t.Logic? ::
              InlineOf(t, o, map["op" := Hash(op), "left" := Hash(left), "right" := Hash(right)]) ==
                Binary(t, o, left, right)
    ensures InlineOf(Logic, "not", map["op" := Hash(op), "left" := Hash(left)]) == NotOf(left)
    ensures InlineOf(Field, o, map["name" := Hash(op), "entity" := Hash(left)]) == FieldOf(o, left)
    ensures forall rec: map<string, Value> | "entity_type" !in rec ::
              InlineOf(Construct, o, rec["entity_type" := Hash(op)]) == ConstructOf(o, rec)
  {
    var three := map["op" := Hash(op), "left" := Hash(left), "right" := Hash(right)];
    assert three["op" := Str(o)] == map["op" := Str(o), "left" := Hash(left), "right" := Hash(right)];
    var two := map["op" := Hash(op), "left" := Hash(left)];
    assert two["op" := Str("not")] == map["op" := Str("not"), "left" := Hash(left)];
    var field := map["name" := Hash(op), "entity" := Hash(left)];
    assert field["name" := Str(o)] == map["name" := Str(o), "entity" := Hash(left)];
    forall rec: map<string, Value> | "entity_type" !in rec
      ensures InlineOf(Construct, o, rec["entity_type" := Hash(op)]) == ConstructOf(o, rec)
    {
      assert rec["entity_type" := Hash(op)] - {"entity_type"} == rec;
    }
  }

  predicate AllBytes(rec: map<string, Value>) {
    forall k | k in rec :: IsBytes(rec[k])
  }

  lemma AliasInner(c: Ctx, scope: Scope, form: Type, op: Arg, o: string, rec: map<string, Value>, st: State)
    requires IsAlias(form) && ArgGives(c, scope, op) && op.value == Str(o) && Ready(c, st, op.cost, op.need)
    requires AllBytes(rec) && ScalarName(form) in rec && rec[ScalarName(form)] == Hash(op.expr)
    ensures TailsTo(st, Inner(AliasOf(form, rec), scope, c.env, st), InlineOf(form, o, rec), scope, op.cost, op.puts)
  {
    hide EvalOperand, ArgOk, Ready, Ran, Inner, AliasOf, InlineOf, ScalarName;
    OperandRule(c, INVALID_EXPRESSION, false, scope, st, op);
    AliasSteps(form, op.expr, o, rec, scope, c.env, st,
      EvalOperand(Hash(op.expr), INVALID_EXPRESSION, false, scope, c.env, st).st);
  }

  lemma AliasSteps(form: Type, op: Entity, o: string, rec: map<string, Value>, scope: Scope, env: Env, st: State,
      st': State)
    requires IsAlias(form) && AllBytes(rec) && ScalarName(form) in rec && rec[ScalarName(form)] == Hash(op)
    requires EvalOperand(Hash(op), INVALID_EXPRESSION, false, scope, env, st) == OperandReply(Got(Str(o)), st')
    ensures Inner(AliasOf(form, rec), scope, env, st) == Reply(Tail(InlineOf(form, o, rec), scope), st')
  {
    hide EvalOperand, Error, BuiltinNamed, HasBuiltinPrefix, AliasPath, BuiltinOf, InlineForm, InlineOf, EvalApply,
         Keeps, Get, ArgsOf, ScalarName, Inner;
    AliasNamed(form);
    var path := AliasPath(form);
    BuiltinData(path, rec);
    InlineFormIs(form, o, rec);
    assert EvalAlias(form, rec, scope, env, st) == Reply(Tail(InlineOf(form, o, rec), scope), st');
    AliasTurn(BuiltinOf(path, rec), path, rec, form, scope, env, st);
  }

  lemma AliasTurn(e: Entity, path: string, args: map<string, Value>, t: Type, scope: Scope, env: Env, st: State)
    requires e.typ == Apply && e.data.Rec? && Get(e.data, "path") == Str(path)
      && Get(e.data, "operation") == Str("compute")
    requires Get(e.data, "capability") == Null && Get(e.data, "resource") == Null && ArgsOf(e) == Some(args)
    requires HasBuiltinPrefix(path) && BuiltinNamed(path) == Alias(t)
    ensures Inner(e, scope, env, st) == EvalAlias(t, args, scope, env, st)
  {
    hide EvalAlias, Error, BuiltinNamed, HasBuiltinPrefix, Keeps, ArgsOf, Get, EvalOperands;
    assert EvalApplyHandler(e, scope, env, st) == EvalAlias(t, args, scope, env, st);
    assert EvalApply(e, scope, env, st) == EvalApplyHandler(e, scope, env, st);
  }

  lemma InlineFormIs(form: Type, o: string, rec: map<string, Value>)
    requires IsAlias(form)
    ensures InlineForm(form, rec, Some(Str(o))) == InlineOf(form, o, rec)
  {
    if form.Construct? {
      var data := map["fields" := Rec(rec - {"entity_type"}), "entity_type" := Str(o)];
      assert data == map["entity_type" := Str(o), "fields" := Rec(rec - {"entity_type"})];
    }
  }

  /**
   The builtin form of arithmetic, comparison, logic, field access and construction gives exactly what
   the inline form gives, in the same depth slot, for the operations its string argument costs and one more.
   */
  lemma AliasIsInline(c: Ctx, scope: Scope, form: Type, op: Arg, o: string, rec: map<string, Value>, v: Value, k: nat,
      d: nat, puts: set<Entity>)
    requires IsAlias(form) && ArgGives(c, scope, op) && op.value == Str(o)
    requires AllBytes(rec) && ScalarName(form) in rec && rec[ScalarName(form)] == Hash(op.expr)
    requires Gives(c.(held := c.held + op.puts), InlineOf(form, o, rec), scope, v, k, d, puts)
    ensures Gives(c, AliasOf(form, rec), scope, v, 1 + op.cost + k, Max(1 + op.need, d), puts)
  {
    hide Inner, ArgGives, Ready, AliasOf, InlineOf, Gives, TailsTo, ScalarName, IsAlias;
    forall st | Ready(c, st, op.cost, op.need)
      ensures TailsTo(st, Inner(AliasOf(form, rec), scope, c.env, st), InlineOf(form, o, rec), scope, op.cost, op.puts)
    {
      AliasInner(c, scope, form, op, o, rec, st);
    }
    TailForm(c, AliasOf(form, rec), scope, InlineOf(form, o, rec), scope, op.cost, op.need, op.puts, v, k, d, puts);
  }
}
