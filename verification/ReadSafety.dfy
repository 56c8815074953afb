/**
 Evaluation reads the tree only where it may: every path it registers is readable, and what is bound at
 other paths makes no difference to it.  Each lemma below follows one function of the evaluator.
 */
module ReadSafety {
  import T = Trampoline
  import opened Values
  import opened Materialize
  import opened Evaluator

  /**
   Two environments that a reader cannot tell apart: the trees agree on every readable path.  Without content
   store access a reference also resolves to what is bound anywhere, so there the trees bind the same entities.
   */
  ghost predicate SameToReader(env: Env, env': Env) {
    && env' == env.(tree := env'.tree)
    && (forall p | env.readable(p) :: (p in env.tree <==> p in env'.tree) &&
                                      (p in env.tree ==> env.tree[p] == env'.tree[p]))
    && (env.hasAccess || env.tree.Values == env'.tree.Values)
  }

  /** Every path registered on the way is readable. */
  predicate Reads(env: Env, st: State, st': State) {
    forall p | p in st'.deps :: p in st.deps || env.readable(p)
  }

  lemma NothingRead(env: Env, st: State, st': State)
    requires st'.deps == st.deps
    ensures Reads(env, st, st')
    ensures forall later :: Reads(env, st', later) ==> Reads(env, st, later)
  {
  }

  lemma SameResolution(ref: Value, env: Env, env': Env, st: State)
    requires SameToReader(env, env')
    ensures Resolve(ref, env', st) == Resolve(ref, env, st)
  {
  }

  lemma SameTail(ref: Value, scope: Scope, env: Env, env': Env, st: State)
    requires SameToReader(env, env')
    ensures TailTo(ref, scope, env', st) == TailTo(ref, scope, env, st)
  {
    hide Resolve, SameToReader, Error;
    SameResolution(ref, env, env', st);
  }

  /**
   Evaluation gives the same outcome, store, marks and dependencies in environments its reader cannot tell
   apart, and registers readable paths only.
   */
  lemma {:induction false} ReadsOnlyReadable(e: Entity, scope: Scope, env: Env, env': Env, st: State)
    requires SameToReader(env, env')
    ensures Evaluate(e, scope, env', st) == Evaluate(e, scope, env, st)
    ensures Reads(env, st, Evaluate(e, scope, env, st).st)
    decreases Pos(st.ops), 1
  {
    hide Evaluate, Trampoline, Error, SameToReader;
    T.Entry(e, scope, env, st);
    T.Entry(e, scope, env', st);
    TrampolineReads(e, scope, env, env', st.(depth := st.depth - 1));
  }

  lemma {:induction false} TrampolineReads(e: Entity, scope: Scope, env: Env, env': Env, st: State)
    requires SameToReader(env, env')
    ensures Trampoline(e, scope, env', st) == Trampoline(e, scope, env, st)
    ensures Reads(env, st, Trampoline(e, scope, env, st).st)
    decreases Pos(st.ops), 0
  {
    hide Trampoline, Inner, Error, SameToReader;
    T.Turn(e, scope, env, st);
    T.Turn(e, scope, env', st);
    if st.ops > 1 {
      var charged := st.(ops := st.ops - 1, steps := st.steps + 1);
      var r := Inner(e, scope, env, charged);
      InnerReads(e, scope, env, env', charged);
      assert charged == st.(ops := st.ops - 1).(steps := st.steps + 1);
      if r.step.Tail? { TrampolineReads(r.step.next, r.step.scope, env, env', r.st); }
    }
  }

  lemma TreeLookupReads(e: Entity, scope: Scope, env: Env, env': Env, st: State)
    requires SameToReader(env, env')
    ensures EvalLookupTree(e, scope, env', st) == EvalLookupTree(e, scope, env, st)
    ensures Reads(env, st, EvalLookupTree(e, scope, env, st).st)
  {
    hide LookupPath, Error, Keeps, Follows;
  }

  lemma HashLookupReads(e: Entity, scope: Scope, env: Env, env': Env, st: State)
    requires SameToReader(env, env')
    ensures EvalLookupHash(e, scope, env', st) == EvalLookupHash(e, scope, env, st)
    ensures Reads(env, st, EvalLookupHash(e, scope, env, st).st)
  {
    hide Resolve, SameToReader, Error;
    SameResolution(Get(e.data, "hash"), env, env', st);
  }

  lemma {:induction false} InnerReads(e: Entity, scope: Scope, env: Env, env': Env, st: State)
    requires SameToReader(env, env')
    ensures Inner(e, scope, env', st) == Inner(e, scope, env, st)
    ensures Reads(env, st, Inner(e, scope, env, st).st)
    decreases Pos(st.ops), 6
  {
    hide EvalApply, EvalIf, EvalLet, EvalIndex, EvalStrict, EvalLookupTree, EvalLookupHash, Error, Get, CaptureRaises;
    hide CapturePuts, CaptureMarks, SameToReader;
    if IsExpressionType(e.typ) && e.data.Rec? {
      match e.typ
      case Literal =>
      case LookupScope =>
      case LookupTree => TreeLookupReads(e, scope, env, env', st);
      case LookupHash => HashLookupReads(e, scope, env, env', st);
      case Apply => ApplyReads(e, scope, env, env', st);
      case If => IfReads(e, scope, env, env', st);
      case Let => LetReads(e, scope, env, env', st);
      case Lambda =>
      case Index => IndexReads(e, scope, env, env', st);
      case _ => StrictReads(e, scope, env, env', st);
    }
  }

  lemma {:induction false} OperandReads(ref: Value, missing: string, contained: bool, scope: Scope, env: Env, env': Env,
                                        st: State)
    requires SameToReader(env, env')
    ensures var r := EvalOperand(ref, missing, contained, scope, env, st);
            EvalOperand(ref, missing, contained, scope, env', st) == r && Reads(env, st, r.st)
    decreases Pos(st.ops), 2
  {
    hide Evaluate, Error, IsError, Resolve, SameToReader;
    SameResolution(ref, env, env', st);
    if IsBytes(ref) && Resolve(ref, env, st).Some? {
      var e := Resolve(ref, env, st).value;
      if !e.typ.ErrorValue? || contained { ReadsOnlyReadable(e, scope, env, env', st); }
    }
  }

  lemma {:induction false} OperandsRead(items: seq<Item>, grow: bool, acc: Scope, scope: Scope, env: Env, env': Env,
                                        st: State)
    requires SameToReader(env, env')
    ensures var r := EvalOperands(items, grow, acc, scope, env, st);
            EvalOperands(items, grow, acc, scope, env', st) == r && Reads(env, st, r.st)
    decreases Pos(st.ops), 3, |items|
  {
    hide EvalOperand, SameToReader;
    if items != [] && items[0].Item? {
      var i, s := items[0], if grow then acc else scope;
      var o := EvalOperand(i.ref, i.missing, i.contained, s, env, st);
      OperandReads(i.ref, i.missing, i.contained, s, env, env', st);
      if o.out.Got? { OperandsRead(items[1..], grow, acc[i.name := o.out.v], scope, env, env', o.st); }
    }
  }

  lemma {:induction false} IfReads(e: Entity, scope: Scope, env: Env, env': Env, st: State)
    requires SameToReader(env, env')
    ensures EvalIf(e, scope, env', st) == EvalIf(e, scope, env, st)
    ensures Reads(env, st, EvalIf(e, scope, env, st).st)
    decreases Pos(st.ops), 5
  {
    hide EvalOperand, Error, Get, Truthy, TailTo, SameToReader;
    var c := EvalOperand(Get(e.data, "condition"), INVALID_EXPRESSION, false, scope, env, st);
    OperandReads(Get(e.data, "condition"), INVALID_EXPRESSION, false, scope, env, env', st);
    SameTail(Get(e.data, "then"), scope, env, env', c.st);
    SameTail(Get(e.data, "else"), scope, env, env', c.st);
  }

  lemma {:induction false} LetReads(e: Entity, scope: Scope, env: Env, env': Env, st: State)
    requires SameToReader(env, env')
    ensures EvalLet(e, scope, env', st) == EvalLet(e, scope, env, st)
    ensures Reads(env, st, EvalLet(e, scope, env, st).st)
    decreases Pos(st.ops), 5
  {
    hide EvalOperands, LetItems, Error, Get, GetOr, TailTo, SameToReader;
    var bindings := GetOr(e.data, "bindings", Arr([]));
    if bindings.Arr? {
      var bs := EvalOperands(LetItems(bindings.elems), true, scope, scope, env, st);
      OperandsRead(LetItems(bindings.elems), true, scope, scope, env, env', st);
      if bs.out.All? { SameTail(Get(e.data, "body"), bs.out.values, env, env', bs.st); }
    }
  }

  lemma {:induction false} IndexReads(e: Entity, scope: Scope, env: Env, env': Env, st: State)
    requires SameToReader(env, env')
    ensures EvalIndex(e, scope, env', st) == EvalIndex(e, scope, env, st)
    ensures Reads(env, st, EvalIndex(e, scope, env, st).st)
    decreases Pos(st.ops), 5
  {
    hide EvalOperand, Error, Get, SameToReader;
    var arrayRef, indexRef := Get(e.data, "array"), Get(e.data, "index");
    if IsBytes(arrayRef) && IsBytes(indexRef) {
      var xs := EvalOperand(arrayRef, INVALID_EXPRESSION, false, scope, env, st);
      OperandReads(arrayRef, INVALID_EXPRESSION, false, scope, env, env', st);
      if xs.out.Got? && xs.out.v.Arr? { OperandReads(indexRef, INVALID_EXPRESSION, false, scope, env, env', xs.st); }
    }
  }

  lemma {:induction false} StrictReads(e: Entity, scope: Scope, env: Env, env': Env, st: State)
    requires SameToReader(env, env')
    ensures EvalStrict(e, scope, env', st) == EvalStrict(e, scope, env, st)
    ensures Reads(env, st, EvalStrict(e, scope, env, st).st)
    decreases Pos(st.ops), 5
  {
    hide EvalOperands, StrictItems, Combine, SameToReader;
    var items := StrictItems(e);
    if items.Some? { OperandsRead(items.value, false, map[], scope, env, env', st); }
  }

  lemma {:induction false} ApplyReads(e: Entity, scope: Scope, env: Env, env': Env, st: State)
    requires SameToReader(env, env')
    ensures EvalApply(e, scope, env', st) == EvalApply(e, scope, env, st)
    ensures Reads(env, st, EvalApply(e, scope, env, st).st)
    decreases Pos(st.ops), 5, 1
  {
    hide EvalApplyHandler, EvalApplyClosure, Error, Get, SameToReader;
    if !Get(e.data, "path").Null? { ApplyHandlerReads(e, scope, env, env', st); }
    else if !Get(e.data, "fn").Null? { ApplyClosureReads(e, scope, env, env', st); }
  }

  lemma {:induction false} ApplyHandlerReads(e: Entity, scope: Scope, env: Env, env': Env, st: State)
    requires SameToReader(env, env')
    ensures EvalApplyHandler(e, scope, env', st) == EvalApplyHandler(e, scope, env, st)
    ensures Reads(env, st, EvalApplyHandler(e, scope, env, st).st)
    decreases Pos(st.ops), 5, 0
  {
    hide EvalCall, EvalAlias, Error, Get, ArgsOf, BuiltinNamed, HasBuiltinPrefix, SameToReader;
    var path := Get(e.data, "path");
    if path.Str? && ArgsOf(e).Some? {
      var args, f := ArgsOf(e).value, BuiltinNamed(path.s);
      if f.Alias? { AliasReads(f.form, args, scope, env, env', st); }
      else { CallReads(f, args, scope, env, env', st); }
    }
  }

  lemma {:induction false} CallReads(f: Builtin, args: map<string, Value>, scope: Scope, env: Env, env': Env, st: State)
    requires SameToReader(env, env') && !f.Alias?
    ensures EvalCall(f, args, scope, env', st) == EvalCall(f, args, scope, env, st)
    ensures Reads(env, st, EvalCall(f, args, scope, env, st).st)
    decreases Pos(st.ops), 4, 1
  {
    hide EvalOperands, EvalBuiltin, ContainedArgs, MapItems, CanonicalKeys, SameToReader;
    var items := MapItems(CanonicalKeys(args.Keys), args, ContainedArgs(f));
    var vs := EvalOperands(items, false, map[], scope, env, st);
    OperandsRead(items, false, map[], scope, env, env', st);
    if vs.out.All? { BuiltinReads(f, vs.out.values, env, env', vs.st); }
  }

  lemma {:induction false} AliasReads(form: Type, args: map<string, Value>, scope: Scope, env: Env, env': Env,
      st: State)
    requires SameToReader(env, env')
    ensures EvalAlias(form, args, scope, env', st) == EvalAlias(form, args, scope, env, st)
    ensures Reads(env, st, EvalAlias(form, args, scope, env, st).st)
    decreases Pos(st.ops), 4, 0
  {
    hide EvalOperand, InlineForm, Error, ScalarName, SameToReader;
    var name := ScalarName(form);
    if name in args && forall k | k in args :: IsBytes(args[k]) {
      OperandReads(args[name], INVALID_EXPRESSION, false, scope, env, env', st);
    }
  }

  lemma OpenReads(fn: Value, env: Env, env': Env, st: State)
    requires SameToReader(env, env')
    ensures OpenClosure(fn, env', st) == OpenClosure(fn, env, st)
    ensures OpenClosure(fn, env, st).st.deps == st.deps
  {
    hide LoadScope, TypeOf, DataOf, Error;
  }

  lemma {:induction false} ApplyClosureReads(e: Entity, scope: Scope, env: Env, env': Env, st: State)
    requires SameToReader(env, env')
    ensures EvalApplyClosure(e, scope, env', st) == EvalApplyClosure(e, scope, env, st)
    ensures Reads(env, st, EvalApplyClosure(e, scope, env, st).st)
    decreases Pos(st.ops), 5, 0
  {
    hide OpenClosure, EvalOperand, EvalOperands, ParamNames, ParamItems, ArgsOf, CallBody, SameToReader;
    var f := EvalOperand(Get(e.data, "fn"), INVALID_EXPRESSION, false, scope, env, st);
    OperandReads(Get(e.data, "fn"), INVALID_EXPRESSION, false, scope, env, env', st);
    if f.out.Got? {
      var c := OpenClosure(f.out.v, env, f.st);
      OpenReads(f.out.v, env, env', f.st);
      if c.Open? && ParamNames(c.data).Some? && ArgsOf(e).Some? {
        var items := ParamItems(ParamNames(c.data).value, ArgsOf(e).value);
        var vs := EvalOperands(items, false, c.scope, scope, env, c.st);
        OperandsRead(items, false, c.scope, scope, env, env', c.st);
        if vs.out.All? { SameBody(Get(c.data, "body"), vs.out.values, env, env', vs.st); }
      }
    }
  }

  lemma SameBody(body: Value, inner: Scope, env: Env, env': Env, st: State)
    requires SameToReader(env, env')
    ensures CallBody(body, inner, env', st) == CallBody(body, inner, env, st)
  {
    hide TailTo, SameToReader, Error;
    SameTail(body, inner, env, env', st);
  }

  lemma {:induction false} InvokeReads(fn: Value, vals: seq<Value>, env: Env, env': Env, st: State)
    requires SameToReader(env, env')
    ensures Invoke(fn, vals, env', st) == Invoke(fn, vals, env, st)
    ensures Reads(env, st, Invoke(fn, vals, env, st).st)
    decreases Pos(st.ops), 2
  {
    hide OpenClosure, ParamNames, BindAll, Evaluate, Resolve, SameToReader, Error;
    var c := OpenClosure(fn, env, st);
    OpenReads(fn, env, env', st);
    if c.Open? && ParamNames(c.data).Some? {
      var ps, body := ParamNames(c.data).value, Resolve(Get(c.data, "body"), env, c.st);
      SameResolution(Get(c.data, "body"), env, env', c.st);
      if |ps| == |vals| && body.Some? && !body.value.typ.ErrorValue? {
        ReadsOnlyReadable(body.value, BindAll(c.scope, ps, vals), env, env', c.st);
      }
    }
  }

  lemma {:induction false} CollectReads(f: Builtin, fn: Value, els: seq<Value>, acc: Accum, env: Env, env': Env,
      st: State)
    requires SameToReader(env, env')
    ensures Collect(f, fn, els, acc, env', st) == Collect(f, fn, els, acc, env, st)
    ensures Reads(env, st, Collect(f, fn, els, acc, env, st).st)
    decreases Pos(st.ops), 3, |els|, 1
  {
    hide Invoke, CollectRest, Finish, CallValues, SameToReader;
    if els != [] {
      InvokeReads(fn, CallValues(acc, els[0]), env, env', st);
      CollectRestReads(f, fn, els, acc, env, env', Invoke(fn, CallValues(acc, els[0]), env, st));
    }
  }

  lemma {:induction false} CollectRestReads(f: Builtin, fn: Value, els: seq<Value>, acc: Accum, env: Env, env': Env,
                                            reply: Reply)
    requires SameToReader(env, env') && els != [] && !reply.step.Tail?
    ensures CollectRest(f, fn, els, acc, env', reply) == CollectRest(f, fn, els, acc, env, reply)
    ensures Reads(env, reply.st, CollectRest(f, fn, els, acc, env, reply).st)
    decreases Pos(reply.st.ops), 3, |els|, 0
  {
    hide CollectRest, Collect, Absorb, AbsorbStores, SameToReader, Reads;
    NothingRead(env, reply.st, reply.st);
    if reply.step.Done? {
      var st := reply.st.(store := reply.st.store + AbsorbStores(acc, reply.step.v));
      NothingRead(env, reply.st, st);
      RestIs(f, fn, els, acc, env, reply);
      RestIs(f, fn, els, acc, env', reply);
      var absorbed := Absorb(f, acc, els[0], reply.step.v);
      if absorbed.More? { CollectReads(f, fn, els[1..], absorbed.acc, env, env', st); }
    } else {
      RestStops(f, fn, els, acc, env, reply);
      RestStops(f, fn, els, acc, env', reply);
    }
  }

  lemma RestIs(f: Builtin, fn: Value, els: seq<Value>, acc: Accum, env: Env, reply: Reply)
    requires els != [] && reply.step.Done?
    ensures var st := reply.st.(store := reply.st.store + AbsorbStores(acc, reply.step.v));
            var absorbed := Absorb(f, acc, els[0], reply.step.v);
            CollectRest(f, fn, els, acc, env, reply) ==
            if absorbed.Halt? then Reply(Done(absorbed.v), st) else Collect(f, fn, els[1..], absorbed.acc, env, st)
  {
    hide Collect, Absorb, AbsorbStores;
  }

  lemma RestStops(f: Builtin, fn: Value, els: seq<Value>, acc: Accum, env: Env, reply: Reply)
    requires els != [] && !reply.step.Tail? && !reply.step.Done?
    ensures CollectRest(f, fn, els, acc, env, reply) == reply
  {
  }

  lemma {:induction false} BuiltinReads(f: Builtin, args: Scope, env: Env, env': Env, st: State)
    requires SameToReader(env, env')
    ensures EvalBuiltin(f, args, env', st) == EvalBuiltin(f, args, env, st)
    ensures Reads(env, st, EvalBuiltin(f, args, env, st).st)
    decreases Pos(st.ops), 4, 0, 0
  {
    hide Collect, SameToReader, IsShortCircuitLimit, Error, ApplyConcat, ApplyAssoc;
    var collection, fn := Get(Rec(args), "collection"), Get(Rec(args), "fn");
    if collection.Arr? && f in {Map, Filter, Fold, GroupBy} {
      CollectReads(f, fn, collection.elems, StartOf(f, Get(Rec(args), "initial")), env, env', st);
    }
  }
}
