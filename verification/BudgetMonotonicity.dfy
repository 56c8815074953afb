/**
 A bigger budget changes nothing for an evaluation that never hit a limit: two runs that differ
 only in their budgets go through the same steps as long as neither limit error is minted.
 Each lemma below follows one function of the evaluator.
 */
module BudgetMonotonicity {
  import T = Trampoline
  import opened Values
  import opened Materialize
  import opened Evaluator

  /** The same state with `a` more operations and `b` more depth. */
  function Up(st: State, a: nat, b: nat): State {
    st.(ops := st.ops + a, depth := st.depth + b)
  }

  function UpReply(r: Reply, a: nat, b: nat): Reply {
    r.(st := Up(r.st, a, b))
  }

  /**
   If a run mints neither `budget_exhausted` nor `depth_exceeded`, then every budget with at
   least as many operations and as much depth gives the same outcome, the same store additions,
   marks and dependencies, and consumes exactly the same operations.
   */
  lemma {:induction false} BudgetMonotone(e: Entity, scope: Scope, env: Env, st: State, a: nat, b: nat)
    requires !Evaluate(e, scope, env, st).st.tripped
    ensures Evaluate(e, scope, env, Up(st, a, b)) == UpReply(Evaluate(e, scope, env, st), a, b)
    decreases Pos(st.ops), 1
  {
    hide Evaluate, Trampoline, Error;
    T.Entry(e, scope, env, st);
    T.Entry(e, scope, env, Up(st, a, b));
    TrampolineUp(e, scope, env, st.(depth := st.depth - 1), a, b);
  }

  lemma {:induction false} TrampolineUp(e: Entity, scope: Scope, env: Env, st: State, a: nat, b: nat)
    requires !Trampoline(e, scope, env, st).st.tripped
    ensures Trampoline(e, scope, env, Up(st, a, b)) == UpReply(Trampoline(e, scope, env, st), a, b)
    decreases Pos(st.ops), 0
  {
    hide Trampoline, Inner, Error;
    T.Turn(e, scope, env, st);
    T.Turn(e, scope, env, Up(st, a, b));
    var charged := st.(ops := st.ops - 1, steps := st.steps + 1);
    var r := Inner(e, scope, env, charged);
    InnerUp(e, scope, env, charged, a, b);
    assert Up(charged, a, b) == Up(st, a, b).(ops := st.ops + a - 1, steps := st.steps + 1);
    if r.step.Tail? { TrampolineUp(r.step.next, r.step.scope, env, r.st, a, b); }
  }

  lemma {:induction false} InnerUp(e: Entity, scope: Scope, env: Env, st: State, a: nat, b: nat)
    requires !Inner(e, scope, env, st).st.tripped
    ensures Inner(e, scope, env, Up(st, a, b)) == UpReply(Inner(e, scope, env, st), a, b)
    decreases Pos(st.ops), 6
  {
    hide EvalApply, EvalIf, EvalLet, EvalIndex, EvalStrict, Error, Get, CaptureRaises, CapturePuts, CaptureMarks,
         LookupPath;
    if IsExpressionType(e.typ) && e.data.Rec? {
      match e.typ
      case Literal =>
      case LookupScope =>
      case LookupTree =>
      case LookupHash =>
      case Apply => ApplyUp(e, scope, env, st, a, b);
      case If => IfUp(e, scope, env, st, a, b);
      case Let => LetUp(e, scope, env, st, a, b);
      case Lambda =>
      case Index => IndexUp(e, scope, env, st, a, b);
      case _ => StrictUp(e, scope, env, st, a, b);
    }
  }

  lemma {:induction false} OperandUp(ref: Value, missing: string, contained: bool, scope: Scope, env: Env, st: State,
      a: nat, b: nat)
    requires !EvalOperand(ref, missing, contained, scope, env, st).st.tripped
    ensures var r := EvalOperand(ref, missing, contained, scope, env, st);
            EvalOperand(ref, missing, contained, scope, env, Up(st, a, b)) == r.(st := Up(r.st, a, b))
    decreases Pos(st.ops), 2
  {
    hide Evaluate, Error, IsError;
    if IsBytes(ref) && Resolve(ref, env, st).Some? {
      var e := Resolve(ref, env, st).value;
      if !e.typ.ErrorValue? || contained { BudgetMonotone(e, scope, env, st, a, b); }
    }
  }

  lemma {:induction false} OperandsUp(items: seq<Item>, grow: bool, acc: Scope, scope: Scope, env: Env, st: State,
      a: nat, b: nat)
    requires !EvalOperands(items, grow, acc, scope, env, st).st.tripped
    ensures var r := EvalOperands(items, grow, acc, scope, env, st);
            EvalOperands(items, grow, acc, scope, env, Up(st, a, b)) == r.(st := Up(r.st, a, b))
    decreases Pos(st.ops), 3, |items|
  {
    hide EvalOperand;
    if items != [] && items[0].Item? {
      var i, s := items[0], if grow then acc else scope;
      var o := EvalOperand(i.ref, i.missing, i.contained, s, env, st);
      OperandUp(i.ref, i.missing, i.contained, s, env, st, a, b);
      if o.out.Got? { OperandsUp(items[1..], grow, acc[i.name := o.out.v], scope, env, o.st, a, b); }
    }
  }

  lemma {:induction false} IfUp(e: Entity, scope: Scope, env: Env, st: State, a: nat, b: nat)
    requires !EvalIf(e, scope, env, st).st.tripped
    ensures EvalIf(e, scope, env, Up(st, a, b)) == UpReply(EvalIf(e, scope, env, st), a, b)
    decreases Pos(st.ops), 5
  {
    hide EvalOperand, Error, Get, Truthy;
    OperandUp(Get(e.data, "condition"), INVALID_EXPRESSION, false, scope, env, st, a, b);
  }

  lemma {:induction false} LetUp(e: Entity, scope: Scope, env: Env, st: State, a: nat, b: nat)
    requires !EvalLet(e, scope, env, st).st.tripped
    ensures EvalLet(e, scope, env, Up(st, a, b)) == UpReply(EvalLet(e, scope, env, st), a, b)
    decreases Pos(st.ops), 5
  {
    hide EvalOperands, LetItems, Error, Get, GetOr;
    var bindings := GetOr(e.data, "bindings", Arr([]));
    if bindings.Arr? { OperandsUp(LetItems(bindings.elems), true, scope, scope, env, st, a, b); }
  }

  lemma {:induction false} IndexUp(e: Entity, scope: Scope, env: Env, st: State, a: nat, b: nat)
    requires !EvalIndex(e, scope, env, st).st.tripped
    ensures EvalIndex(e, scope, env, Up(st, a, b)) == UpReply(EvalIndex(e, scope, env, st), a, b)
    decreases Pos(st.ops), 5
  {
    hide EvalOperand, Error, Get;
    var arrayRef, indexRef := Get(e.data, "array"), Get(e.data, "index");
    if IsBytes(arrayRef) && IsBytes(indexRef) {
      var xs := EvalOperand(arrayRef, INVALID_EXPRESSION, false, scope, env, st);
      OperandUp(arrayRef, INVALID_EXPRESSION, false, scope, env, st, a, b);
      if xs.out.Got? && xs.out.v.Arr? { OperandUp(indexRef, INVALID_EXPRESSION, false, scope, env, xs.st, a, b); }
    }
  }

  lemma {:induction false} StrictUp(e: Entity, scope: Scope, env: Env, st: State, a: nat, b: nat)
    requires !EvalStrict(e, scope, env, st).st.tripped
    ensures EvalStrict(e, scope, env, Up(st, a, b)) == UpReply(EvalStrict(e, scope, env, st), a, b)
    decreases Pos(st.ops), 5
  {
    hide EvalOperands, StrictItems, Combine;
    var items := StrictItems(e);
    if items.Some? { OperandsUp(items.value, false, map[], scope, env, st, a, b); }
  }

  lemma {:induction false} ApplyUp(e: Entity, scope: Scope, env: Env, st: State, a: nat, b: nat)
    requires !EvalApply(e, scope, env, st).st.tripped
    ensures EvalApply(e, scope, env, Up(st, a, b)) == UpReply(EvalApply(e, scope, env, st), a, b)
    decreases Pos(st.ops), 5, 1
  {
    hide EvalApplyHandler, EvalApplyClosure, Error, Get;
    if !Get(e.data, "path").Null? { ApplyHandlerUp(e, scope, env, st, a, b); }
    else if !Get(e.data, "fn").Null? { ApplyClosureUp(e, scope, env, st, a, b); }
  }

  lemma {:induction false} ApplyHandlerUp(e: Entity, scope: Scope, env: Env, st: State, a: nat, b: nat)
    requires !EvalApplyHandler(e, scope, env, st).st.tripped
    ensures EvalApplyHandler(e, scope, env, Up(st, a, b)) == UpReply(EvalApplyHandler(e, scope, env, st), a, b)
    decreases Pos(st.ops), 5, 0
  {
    hide EvalCall, EvalAlias, Error, Get, ArgsOf, BuiltinNamed, HasBuiltinPrefix;
    var path := Get(e.data, "path");
    if path.Str? && ArgsOf(e).Some? &&
       !(HasBuiltinPrefix(path.s) && (!Get(e.data, "capability").Null? || !Get(e.data, "resource").Null?)) {
      var args, f := ArgsOf(e).value, BuiltinNamed(path.s);
      if !Get(e.data, "operation").Null? {
        if f.Alias? { AliasUp(f.form, args, scope, env, st, a, b); }
        else { CallUp(f, args, scope, env, st, a, b); }
      }
    }
  }

  lemma {:induction false} CallUp(f: Builtin, args: map<string, Value>, scope: Scope, env: Env, st: State, a: nat,
      b: nat)
    requires !f.Alias? && !EvalCall(f, args, scope, env, st).st.tripped
    ensures EvalCall(f, args, scope, env, Up(st, a, b)) == UpReply(EvalCall(f, args, scope, env, st), a, b)
    decreases Pos(st.ops), 4, 1
  {
    hide EvalOperands, EvalBuiltin, ContainedArgs, MapItems, CanonicalKeys;
    var items := MapItems(CanonicalKeys(args.Keys), args, ContainedArgs(f));
    var vs := EvalOperands(items, false, map[], scope, env, st);
    OperandsUp(items, false, map[], scope, env, st, a, b);
    if vs.out.All? { BuiltinUp(f, vs.out.values, env, vs.st, a, b); }
  }

  lemma {:induction false} AliasUp(form: Type, args: map<string, Value>, scope: Scope, env: Env, st: State, a: nat,
      b: nat)
    requires !EvalAlias(form, args, scope, env, st).st.tripped
    ensures EvalAlias(form, args, scope, env, Up(st, a, b)) == UpReply(EvalAlias(form, args, scope, env, st), a, b)
    decreases Pos(st.ops), 4, 0
  {
    hide EvalOperand, InlineForm, Error, ScalarName;
    var name := ScalarName(form);
    if name in args && forall k | k in args :: IsBytes(args[k]) {
      OperandUp(args[name], INVALID_EXPRESSION, false, scope, env, st, a, b);
    }
  }

  lemma OpenUp(fn: Value, env: Env, st: State, a: nat, b: nat)
    ensures var c := OpenClosure(fn, env, st);
            OpenClosure(fn, env, Up(st, a, b)) == c.(st := Up(c.st, a, b))
  {
    hide LoadScope, TypeOf, DataOf;
  }

  lemma {:induction false} ApplyClosureUp(e: Entity, scope: Scope, env: Env, st: State, a: nat, b: nat)
    requires !EvalApplyClosure(e, scope, env, st).st.tripped
    ensures EvalApplyClosure(e, scope, env, Up(st, a, b)) == UpReply(EvalApplyClosure(e, scope, env, st), a, b)
    decreases Pos(st.ops), 5, 0
  {
    hide OpenClosure, EvalOperand, EvalOperands, ParamNames, ParamItems, ArgsOf;
    var f := EvalOperand(Get(e.data, "fn"), INVALID_EXPRESSION, false, scope, env, st);
    OperandUp(Get(e.data, "fn"), INVALID_EXPRESSION, false, scope, env, st, a, b);
    if f.out.Got? {
      var c := OpenClosure(f.out.v, env, f.st);
      OpenUp(f.out.v, env, f.st, a, b);
      if c.Open? && ParamNames(c.data).Some? && ArgsOf(e).Some? {
        var items := ParamItems(ParamNames(c.data).value, ArgsOf(e).value);
        OperandsUp(items, false, c.scope, scope, env, c.st, a, b);
      }
    }
  }

  lemma {:induction false} InvokeUp(fn: Value, vals: seq<Value>, env: Env, st: State, a: nat, b: nat)
    requires !Invoke(fn, vals, env, st).st.tripped
    ensures Invoke(fn, vals, env, Up(st, a, b)) == UpReply(Invoke(fn, vals, env, st), a, b)
    decreases Pos(st.ops), 2
  {
    hide OpenClosure, ParamNames, BindAll, Evaluate;
    var c := OpenClosure(fn, env, st);
    OpenUp(fn, env, st, a, b);
    if c.Open? && ParamNames(c.data).Some? {
      var ps, body := ParamNames(c.data).value, Resolve(Get(c.data, "body"), env, c.st);
      if |ps| == |vals| && body.Some? && !body.value.typ.ErrorValue? {
        BudgetMonotone(body.value, BindAll(c.scope, ps, vals), env, c.st, a, b);
      }
    }
  }

  lemma {:induction false} CollectUp(f: Builtin, fn: Value, els: seq<Value>, acc: Accum, env: Env, st: State, a: nat,
      b: nat)
    requires !Collect(f, fn, els, acc, env, st).st.tripped
    ensures Collect(f, fn, els, acc, env, Up(st, a, b)) == UpReply(Collect(f, fn, els, acc, env, st), a, b)
    decreases Pos(st.ops), 3, |els|, 1
  {
    hide Invoke, CollectRest, Finish, CallValues;
    if els != [] {
      InvokeUp(fn, CallValues(acc, els[0]), env, st, a, b);
      CollectRestUp(f, fn, els, acc, env, Invoke(fn, CallValues(acc, els[0]), env, st), a, b);
    }
  }

  lemma {:induction false} CollectRestUp(f: Builtin, fn: Value, els: seq<Value>, acc: Accum, env: Env, reply: Reply,
      a: nat, b: nat)
    requires els != [] && !reply.step.Tail?
    requires !CollectRest(f, fn, els, acc, env, reply).st.tripped
    ensures CollectRest(f, fn, els, acc, env, UpReply(reply, a, b)) ==
      UpReply(CollectRest(f, fn, els, acc, env, reply), a, b)
    decreases Pos(reply.st.ops), 3, |els|, 0
  {
    hide Collect, Absorb, AbsorbStores;
    if reply.step.Done? && Absorb(f, acc, els[0], reply.step.v).More? {
      var st := reply.st.(store := reply.st.store + AbsorbStores(acc, reply.step.v));
      CollectUp(f, fn, els[1..], Absorb(f, acc, els[0], reply.step.v).acc, env, st, a, b);
    }
  }

  lemma {:induction false} BuiltinUp(f: Builtin, args: Scope, env: Env, st: State, a: nat, b: nat)
    requires !EvalBuiltin(f, args, env, st).st.tripped
    ensures EvalBuiltin(f, args, env, Up(st, a, b)) == UpReply(EvalBuiltin(f, args, env, st), a, b)
    decreases Pos(st.ops), 4, 0, 0
  {
    hide Collect;
    var collection, initial := Get(Rec(args), "collection"), Get(Rec(args), "initial");
    if (f.Map? || f.Filter? || f.Fold? || f.GroupBy?) && collection.Arr? &&
       !(f.Fold? && IsShortCircuitLimit(initial)) {
      CollectUp(f, Get(Rec(args), "fn"), collection.elems, StartOf(f, initial), env, st, a, b);
    }
  }
}
