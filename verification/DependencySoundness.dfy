/**
 Dependency registration is sound: evaluating a covered expression only registers predicted
 paths, through closures, captured scopes, arrays, fields and builtins.  Each lemma below
 follows one function of the evaluator.
 */
module DependencySoundness {
  import opened Values
  import opened Integers
  import opened Materialize
  import opened Evaluator
  import opened Dependencies

  lemma CovFail(code: string, message: string, D: set<string>, root: string)
    ensures Cov(Error(code, message), D, root)
  {
    CovPlain(Error(code, message), D, root);
  }

  lemma {:induction false} CovEvaluate(e: Entity, scope: Scope, env: Env, st: State, D: set<string>)
    requires TreeCovered(env, D) && CovE(e, D, env.root) && CovScope(scope, D, env.root)
    ensures CovReply(st, Evaluate(e, scope, env, st), D, env.root)
    decreases Pos(st.ops), 1
  {
    hide Error;
    CovFail(DEPTH_EXCEEDED, "maximum evaluation depth exceeded", D, env.root);
    if st.depth > 0 { CovTrampoline(e, scope, env, st.(depth := st.depth - 1), D); }
  }

  lemma {:induction false} CovTrampoline(e: Entity, scope: Scope, env: Env, st: State, D: set<string>)
    requires TreeCovered(env, D) && CovE(e, D, env.root) && CovScope(scope, D, env.root)
    ensures CovReply(st, Trampoline(e, scope, env, st), D, env.root)
    decreases Pos(st.ops), 0
  {
    hide Error;
    CovFail(BUDGET_EXHAUSTED, "computation budget exhausted", D, env.root);
    if st.ops > 1 {
      var charged := st.(ops := st.ops - 1, steps := st.steps + 1);
      var r := Inner(e, scope, env, charged);
      CovInner(e, scope, env, charged, D);
      if r.step.Tail? { CovTrampoline(r.step.next, r.step.scope, env, r.st, D); }
    }
  }

  lemma {:induction false} CovInner(e: Entity, scope: Scope, env: Env, st: State, D: set<string>)
    requires TreeCovered(env, D) && CovE(e, D, env.root) && CovScope(scope, D, env.root)
    ensures CovReply(st, Inner(e, scope, env, st), D, env.root)
    decreases Pos(st.ops), 6
  {
    hide Error, EvalApply, EvalIf, EvalLet, EvalIndex, EvalStrict, EvalLambda, EvalLookupScope, EvalLookupTree,
         EvalLookupHash;
    CovFail(UNKNOWN_TYPE, "unknown compute type", D, env.root);
    if IsExpressionType(e.typ) && e.data.Rec? {
      if e.typ.Literal? { CovGet(e.data, "value", Null, D, env.root); }
      else if e.typ.LookupScope? { CovLookupScope(e, scope, st, D, env.root); }
      else if e.typ.LookupTree? { CovLookupTree(e, scope, env, st, D); }
      else if e.typ.LookupHash? { CovLookupHash(e, scope, env, st, D); }
      else if e.typ.Apply? { CovApply(e, scope, env, st, D); }
      else if e.typ.If? { CovIf(e, scope, env, st, D); }
      else if e.typ.Let? { CovLet(e, scope, env, st, D); }
      else if e.typ.Lambda? { CovLambda(e, scope, st, D, env.root); }
      else if e.typ.Index? { CovIndex(e, scope, env, st, D); }
      else { CovStrict(e, scope, env, st, D); }
    }
  }

  lemma CovLookupScope(e: Entity, scope: Scope, st: State, D: set<string>, root: string)
    requires CovScope(scope, D, root)
    ensures CovReply(st, EvalLookupScope(e, scope, st), D, root)
  {
    hide Error;
    CovFail(NOT_FOUND, "no scope binding", D, root);
  }

  lemma CovLookupTree(e: Entity, scope: Scope, env: Env, st: State, D: set<string>)
    requires TreeCovered(env, D) && CovE(e, D, env.root) && CovScope(scope, D, env.root) && e.typ.LookupTree?
    ensures CovReply(st, EvalLookupTree(e, scope, env, st), D, env.root)
  {
    hide Error, LookupPath;
    CovFail(NOT_FOUND, "no entity at path", D, env.root);
    CovFail(PERMISSION_DENIED, "no read access", D, env.root);
  }

  lemma CovLookupHash(e: Entity, scope: Scope, env: Env, st: State, D: set<string>)
    requires CovE(e, D, env.root) && CovScope(scope, D, env.root)
    ensures CovReply(st, EvalLookupHash(e, scope, env, st), D, env.root)
  {
    hide Error, Resolve;
    CovFail(NOT_FOUND, "cannot resolve hash", D, env.root);
    CovFail(INVALID_EXPRESSION, "lookup/hash missing hash field", D, env.root);
    CovGet(e.data, "hash", Null, D, env.root);
  }

  lemma CovTailTo(ref: Value, scope: Scope, env: Env, st: State, D: set<string>)
    requires Cov(ref, D, env.root) && CovScope(scope, D, env.root)
    ensures CovReply(st, TailTo(ref, scope, env, st), D, env.root)
  {
    hide Error, Resolve;
    CovFail(NOT_FOUND, "cannot resolve hash", D, env.root);
    CovFail(INVALID_EXPRESSION, "missing hash", D, env.root);
  }

  // ---------------------------------------------------------------- operands

  ghost predicate CovOperand(st: State, r: OperandReply, D: set<string>, root: string) {
    && Predicted(st, r.st, D)
    && (match r.out case Got(v) => Cov(v, D, root) case Stop(step) => CovStep(step, D, root))
  }

  ghost predicate CovOperands(st: State, r: OperandsReply, D: set<string>, root: string) {
    && Predicted(st, r.st, D)
    && (match r.out case All(vs) => CovScope(vs, D, root) case Early(step) => CovStep(step, D, root))
  }

  ghost predicate CovItems(items: seq<Item>, D: set<string>, root: string) {
    forall i | 0 <= i < |items| && items[i].Item? :: Cov(items[i].ref, D, root)
  }

  lemma {:induction false} CovEvalOperand(ref: Value, missing: string, contained: bool, scope: Scope, env: Env,
      st: State, D: set<string>)
    requires TreeCovered(env, D) && Cov(ref, D, env.root) && CovScope(scope, D, env.root)
    ensures CovOperand(st, EvalOperand(ref, missing, contained, scope, env, st), D, env.root)
    decreases Pos(st.ops), 2
  {
    hide Error, Resolve, Evaluate, IsError, TreeCovered, CovScope;
    CovFail(missing, "missing operand", D, env.root);
    CovFail(INVALID_EXPRESSION, "operand is not a hash", D, env.root);
    CovFail(NOT_FOUND, "cannot resolve hash", D, env.root);
    if IsBytes(ref) && Resolve(ref, env, st).Some? {
      CovEvaluate(Resolve(ref, env, st).value, scope, env, st, D);
    }
  }

  lemma {:induction false} CovEvalOperands(items: seq<Item>, grow: bool, acc: Scope, scope: Scope, env: Env,
      st: State, D: set<string>)
    requires TreeCovered(env, D) && CovItems(items, D, env.root)
    requires CovScope(acc, D, env.root) && CovScope(scope, D, env.root)
    ensures CovOperands(st, EvalOperands(items, grow, acc, scope, env, st), D, env.root)
    decreases Pos(st.ops), 3, |items|
  {
    hide EvalOperand;
    if items != [] && items[0].Item? {
      var i, s := items[0], if grow then acc else scope;
      var o := EvalOperand(i.ref, i.missing, i.contained, s, env, st);
      CovEvalOperand(i.ref, i.missing, i.contained, s, env, st, D);
      if o.out.Got? { CovEvalOperands(items[1..], grow, acc[i.name := o.out.v], scope, env, o.st, D); }
    }
  }

  lemma {:induction false} CovLetItems(bs: seq<Value>, D: set<string>, root: string)
    requires forall i | 0 <= i < |bs| :: Cov(bs[i], D, root)
    ensures CovItems(LetItems(bs), D, root)
  {
    if bs != [] { CovLetItems(bs[1..], D, root); }
  }

  lemma {:induction false} CovMapItems(keys: seq<string>, m: map<string, Value>, contained: set<string>,
      D: set<string>, root: string)
    requires forall k | k in keys :: k in m && Cov(m[k], D, root)
    ensures CovItems(MapItems(keys, m, contained), D, root)
  {
    if keys != [] { CovMapItems(keys[1..], m, contained, D, root); }
  }

  lemma {:induction false} CovParamItems(ps: seq<string>, args: map<string, Value>, D: set<string>, root: string)
    requires CovScope(args, D, root)
    ensures CovItems(ParamItems(ps, args), D, root)
  {
    if ps != [] { CovParamItems(ps[1..], args, D, root); }
  }

  // ---------------------------------------------------------------- forms

  lemma {:induction false} CovIf(e: Entity, scope: Scope, env: Env, st: State, D: set<string>)
    requires TreeCovered(env, D) && CovE(e, D, env.root) && CovScope(scope, D, env.root)
    ensures CovReply(st, EvalIf(e, scope, env, st), D, env.root)
    decreases Pos(st.ops), 5
  {
    hide EvalOperand, TailTo, Get, Truthy;
    CovGet(e.data, "condition", Null, D, env.root);
    CovGet(e.data, "then", Null, D, env.root);
    CovGet(e.data, "else", Null, D, env.root);
    CovEvalOperand(Get(e.data, "condition"), INVALID_EXPRESSION, false, scope, env, st, D);
    var c := EvalOperand(Get(e.data, "condition"), INVALID_EXPRESSION, false, scope, env, st);
    CovTailTo(Get(e.data, "then"), scope, env, c.st, D);
    CovTailTo(Get(e.data, "else"), scope, env, c.st, D);
  }

  lemma {:induction false} CovLet(e: Entity, scope: Scope, env: Env, st: State, D: set<string>)
    requires TreeCovered(env, D) && CovE(e, D, env.root) && CovScope(scope, D, env.root)
    ensures CovReply(st, EvalLet(e, scope, env, st), D, env.root)
    decreases Pos(st.ops), 5
  {
    hide EvalOperands, TailTo, Get, GetOr;
    CovGet(e.data, "body", Null, D, env.root);
    CovGet(e.data, "bindings", Arr([]), D, env.root);
    var bindings := GetOr(e.data, "bindings", Arr([]));
    if bindings.Arr? {
      CovLetItems(bindings.elems, D, env.root);
      CovEvalOperands(LetItems(bindings.elems), true, scope, scope, env, st, D);
      var bs := EvalOperands(LetItems(bindings.elems), true, scope, scope, env, st);
      if bs.out.All? { CovTailTo(Get(e.data, "body"), bs.out.values, env, bs.st, D); }
    }
  }

  lemma CovLambda(e: Entity, scope: Scope, st: State, D: set<string>, root: string)
    requires CovE(e, D, root) && CovScope(scope, D, root)
    ensures CovReply(st, EvalLambda(e, scope, st), D, root)
  {
    hide CaptureHash, CaptureRaises, CapturePuts, CaptureMarks;
    CovGet(e.data, "params", Arr([]), D, root);
    CovGet(e.data, "body", Null, D, root);
    CovCapture(scope, D, root);
    var c := MakeClosure(e, scope);
    assert NodeOk(c, D, root);
    assert Cov(c.data, D, root);
    assert CovE(c, D, root);
  }

  lemma {:induction false} CovIndex(e: Entity, scope: Scope, env: Env, st: State, D: set<string>)
    requires TreeCovered(env, D) && CovE(e, D, env.root) && CovScope(scope, D, env.root)
    ensures CovReply(st, EvalIndex(e, scope, env, st), D, env.root)
    decreases Pos(st.ops), 5
  {
    hide EvalOperand, Error, Get, Cov, TreeCovered;
    var root, arrayRef, indexRef := env.root, Get(e.data, "array"), Get(e.data, "index");
    if !IsBytes(arrayRef) || !IsBytes(indexRef) {
      CovFail(INVALID_EXPRESSION, "index missing hash", D, root);
    } else {
      CovGet(e.data, "array", Null, D, root);
      CovGet(e.data, "index", Null, D, root);
      CovEvalOperand(arrayRef, INVALID_EXPRESSION, false, scope, env, st, D);
      var xs := EvalOperand(arrayRef, INVALID_EXPRESSION, false, scope, env, st);
      if xs.out.Got? {
        if !xs.out.v.Arr? { CovFail(TYPE_MISMATCH, "index requires an array", D, root); }
        else {
          CovElementsOf(xs.out.v, D, root);
          CovEvalOperand(indexRef, INVALID_EXPRESSION, false, scope, env, xs.st, D);
          CovFail(TYPE_MISMATCH, "index requires an integer", D, root);
          CovFail(INDEX_OUT_OF_RANGE, "index out of range", D, root);
        }
      }
    }
  }

  lemma CovElementsOf(v: Value, D: set<string>, root: string)
    requires Cov(v, D, root)
    ensures v.Arr? ==> forall i | 0 <= i < |v.elems| :: Cov(v.elems[i], D, root)
  {
  }

  lemma CovRequired(e: Entity, name: string, D: set<string>, root: string)
    requires CovE(e, D, root)
    ensures Cov(Required(e, name).ref, D, root)
  {
    CovGet(e.data, name, Null, D, root);
  }

  lemma CovStrictItems(e: Entity, D: set<string>, root: string)
    requires CovE(e, D, root) && StrictItems(e).Some?
    ensures CovItems(StrictItems(e).value, D, root)
  {
    hide Get, GetOr, Required, MapItems, CanonicalKeys, Truthy;
    CovRequired(e, "left", D, root);
    CovRequired(e, "right", D, root);
    CovRequired(e, "entity", D, root);
    CovRequired(e, "array", D, root);
    CovRequired(e, "value", D, root);
    CovGet(e.data, "fields", Null, D, root);
    var fields := Get(e.data, "fields");
    if fields.Rec? { CovMapItems(CanonicalKeys(fields.fields.Keys), fields.fields, {}, D, root); }
  }

  lemma {:induction false} CovStrict(e: Entity, scope: Scope, env: Env, st: State, D: set<string>)
    requires TreeCovered(env, D) && CovE(e, D, env.root) && CovScope(scope, D, env.root)
    requires e.data.Rec? && IsStrict(e.typ)
    ensures CovReply(st, EvalStrict(e, scope, env, st), D, env.root)
    decreases Pos(st.ops), 5
  {
    hide EvalOperands, Combine, StrictItems;
    if StrictItems(e).Some? {
      var items := StrictItems(e).value;
      CovStrictItems(e, D, env.root);
      CovEvalOperands(items, false, map[], scope, env, st, D);
      var vs := EvalOperands(items, false, map[], scope, env, st);
      if vs.out.All? { CovCombine(e, vs.out.values, D, env.root); }
    }
  }

  // ---------------------------------------------------------------- apply

  lemma {:induction false} CovApply(e: Entity, scope: Scope, env: Env, st: State, D: set<string>)
    requires TreeCovered(env, D) && CovE(e, D, env.root) && CovScope(scope, D, env.root) && e.typ.Apply?
    ensures CovReply(st, EvalApply(e, scope, env, st), D, env.root)
    decreases Pos(st.ops), 5, 1
  {
    hide EvalApplyHandler, EvalApplyClosure, Error;
    CovFail(INVALID_EXPRESSION, "apply requires path or fn", D, env.root);
    CovApplyHandler(e, scope, env, st, D);
    CovApplyClosure(e, scope, env, st, D);
  }

  lemma CovArgs(e: Entity, D: set<string>, root: string)
    requires CovE(e, D, root)
    ensures ArgsOf(e).Some? ==> CovScope(ArgsOf(e).value, D, root)
  {
    CovGet(e.data, "args", Null, D, root);
  }

  lemma {:induction false} CovApplyHandler(e: Entity, scope: Scope, env: Env, st: State, D: set<string>)
    requires TreeCovered(env, D) && CovE(e, D, env.root) && CovScope(scope, D, env.root) && e.typ.Apply?
    ensures CovReply(st, EvalApplyHandler(e, scope, env, st), D, env.root)
    decreases Pos(st.ops), 5, 0
  {
    hide EvalCall, EvalAlias, Error, Get, ArgsOf, BuiltinNamed, HasBuiltinPrefix;
    CovFail(INVALID_EXPRESSION, "handler mode requires operation", D, env.root);
    CovFail(INVALID_EXPRESSION, "builtin path must not carry capability or resource", D, env.root);
    var path := Get(e.data, "path");
    if path.Str? && ArgsOf(e).Some? {
      var args, b := ArgsOf(e).value, BuiltinNamed(path.s);
      CovArgs(e, D, env.root);
      AliasForms(path.s);
      if b.Alias? { CovAlias(e, b.form, args, scope, env, st, D); }
      else { CovCall(b, args, scope, env, st, D); }
    }
  }

  lemma {:induction false} CovCall(b: Builtin, args: map<string, Value>, scope: Scope, env: Env, st: State,
      D: set<string>)
    requires TreeCovered(env, D) && CovScope(args, D, env.root) && CovScope(scope, D, env.root) && !b.Alias?
    ensures CovReply(st, EvalCall(b, args, scope, env, st), D, env.root)
    decreases Pos(st.ops), 4, 1
  {
    hide EvalOperands, EvalBuiltin, ContainedArgs, MapItems, CanonicalKeys;
    var items := MapItems(CanonicalKeys(args.Keys), args, ContainedArgs(b));
    CovMapItems(CanonicalKeys(args.Keys), args, ContainedArgs(b), D, env.root);
    CovEvalOperands(items, false, map[], scope, env, st, D);
    var vs := EvalOperands(items, false, map[], scope, env, st);
    if vs.out.All? { CovBuiltin(b, vs.out.values, env, vs.st, D); }
  }

  lemma AliasForms(path: string)
    ensures var b := BuiltinNamed(path);
            b.Alias? ==> b.form.Arithmetic? || b.form.Compare? || b.form.Logic? || b.form.Field? || b.form.Construct?
  {
  }

  /** Evaluating a literal gives its value, or a budget error that stops the form. */
  lemma LiteralOperand(l: Entity, scope: Scope, env: Env, st: State)
    requires l.typ.Literal?
    ensures var r := EvalOperand(Hash(l), INVALID_EXPRESSION, false, scope, env, st);
            r.out.Got? ==> r.out.v == Get(l.data, "value")
  {
    hide Error, Resolve, Get;
    if st.depth > 0 && st.ops > 1 {
      var charged := st.(depth := st.depth - 1, ops := st.ops - 1, steps := st.steps + 1);
      var r := Inner(l, scope, env, charged);
      assert r.step.Done? ==> r.step.v == Get(l.data, "value");
      assert Trampoline(l, scope, env, st.(depth := st.depth - 1)).step == r.step;
      assert Evaluate(l, scope, env, st).step == r.step;
    }
  }

  lemma {:induction false} CovAlias(e: Entity, form: Type, args: map<string, Value>, scope: Scope, env: Env,
      st: State, D: set<string>)
    requires TreeCovered(env, D) && CovScope(args, D, env.root) && CovScope(scope, D, env.root)
    requires AliasBuildsPlain(e) && ApplyTarget(e) == Some(Alias(form)) && ArgsOf(e) == Some(args)
    requires form.Arithmetic? || form.Compare? || form.Logic? || form.Field? || form.Construct?
    ensures CovReply(st, EvalAlias(form, args, scope, env, st), D, env.root)
    decreases Pos(st.ops), 4, 0
  {
    hide EvalOperand, Error, InlineForm, ApplyTarget, ArgsOf;
    CovFail(INVALID_EXPRESSION, "argument is not a hash", D, env.root);
    var name := ScalarName(form);
    if name in args {
      CovEvalOperand(args[name], INVALID_EXPRESSION, false, scope, env, st, D);
      var o := EvalOperand(args[name], INVALID_EXPRESSION, false, scope, env, st);
      if o.out.Got? && IsBytes(args[name]) {
        if form.Construct? && args[name].Hash? { LiteralOperand(args[name].target, scope, env, st); }
        if args[name].Bytes? { BytesNeverEvaluate(args[name], scope, env, st); }
        CovInlineForm(form, args, Some(o.out.v), D, env.root);
      }
    } else {
      CovInlineForm(form, args, None, D, env.root);
    }
  }

  lemma BytesNeverEvaluate(ref: Value, scope: Scope, env: Env, st: State)
    requires ref.Bytes?
    ensures EvalOperand(ref, INVALID_EXPRESSION, false, scope, env, st).out.Stop?
  {
  }

  lemma CovInlineForm(form: Type, args: map<string, Value>, scalar: Option<Value>, D: set<string>, root: string)
    requires CovScope(args, D, root) && (scalar.Some? ==> Cov(scalar.value, D, root))
    requires form.Arithmetic? || form.Compare? || form.Logic? || form.Field? || form.Construct?
    requires form.Construct? && scalar.Some? ==> BuildsPlain(scalar.value)
    ensures CovE(InlineForm(form, args, scalar), D, root)
  {
    var f := InlineForm(form, args, scalar);
    assert Cov(f.data, D, root) by {
      if form.Construct? { assert Cov(Rec(args - {ScalarName(form)}), D, root); }
    }
    if form.Construct? {
      assert GetOr(f.data, "entity_type", Str("")) == if scalar.Some? then scalar.value else Str("");
      EmptyTypeIsPlain();
    }
  }

  lemma EmptyTypeIsPlain()
    ensures BuildsPlain(Str(""))
  {
  }

  // ---------------------------------------------------------------- closures

  ghost predicate CovOpened(st: State, r: Opened, D: set<string>, root: string) {
    && Predicted(st, r.st, D)
    && (r.Closed? ==> CovStep(r.step, D, root))
    && (r.Open? ==> Cov(r.data, D, root) && CovScope(r.scope, D, root))
  }

  lemma CovOpenClosure(fn: Value, env: Env, st: State, D: set<string>)
    requires Cov(fn, D, env.root)
    ensures CovOpened(st, OpenClosure(fn, env, st), D, env.root)
  {
    hide Error, LoadScope, TypeOf;
    CovFail(TYPE_MISMATCH, "not a closure", D, env.root);
    CovFail(TYPE_MISMATCH, "closure has no data", D, env.root);
    CovGet(fn, "data", Null, D, env.root);
    CovGet(DataOf(fn), "env", Null, D, env.root);
    CovLoadScope(Get(DataOf(fn), "env"), st.store, env.included, D, env.root);
  }

  lemma {:induction false} CovApplyClosure(e: Entity, scope: Scope, env: Env, st: State, D: set<string>)
    requires TreeCovered(env, D) && CovE(e, D, env.root) && CovScope(scope, D, env.root)
    ensures CovReply(st, EvalApplyClosure(e, scope, env, st), D, env.root)
    decreases Pos(st.ops), 5, 0
  {
    hide EvalOperand, EvalOperands, OpenClosure, ParamNames, ParamItems, ArgsOf, CallBody, Get, Error;
    CovGet(e.data, "fn", Null, D, env.root);
    CovEvalOperand(Get(e.data, "fn"), INVALID_EXPRESSION, false, scope, env, st, D);
    var f := EvalOperand(Get(e.data, "fn"), INVALID_EXPRESSION, false, scope, env, st);
    if f.out.Got? {
      CovOpenClosure(f.out.v, env, f.st, D);
      var c := OpenClosure(f.out.v, env, f.st);
      if c.Open? && ParamNames(c.data).Some? && ArgsOf(e).Some? {
        var items := ParamItems(ParamNames(c.data).value, ArgsOf(e).value);
        CovArgs(e, D, env.root);
        CovParamItems(ParamNames(c.data).value, ArgsOf(e).value, D, env.root);
        CovEvalOperands(items, false, c.scope, scope, env, c.st, D);
        var vs := EvalOperands(items, false, c.scope, scope, env, c.st);
        CovGet(c.data, "body", Null, D, env.root);
        if vs.out.All? { CovCallBody(Get(c.data, "body"), vs.out.values, env, vs.st, D); }
      }
    }
  }

  lemma CovCallBody(body: Value, inner: Scope, env: Env, st: State, D: set<string>)
    requires TreeCovered(env, D) && Cov(body, D, env.root) && CovScope(inner, D, env.root)
    ensures CovReply(st, CallBody(body, inner, env, st), D, env.root)
  {
    hide TailTo, Error;
    CovFail(NOT_FOUND, "cannot resolve hash", D, env.root);
    CovTailTo(body, inner, env, st, D);
  }

  lemma {:induction false} CovBindAll(scope: Scope, ps: seq<string>, vals: seq<Value>, D: set<string>, root: string)
    requires |ps| == |vals| && CovScope(scope, D, root) && forall i | 0 <= i < |vals| :: Cov(vals[i], D, root)
    ensures CovScope(BindAll(scope, ps, vals), D, root)
    decreases |ps|
  {
    if ps != [] { CovBindAll(scope[ps[0] := vals[0]], ps[1..], vals[1..], D, root); }
  }

  lemma {:induction false} CovInvoke(fn: Value, vals: seq<Value>, env: Env, st: State, D: set<string>)
    requires TreeCovered(env, D) && Cov(fn, D, env.root) && forall i | 0 <= i < |vals| :: Cov(vals[i], D, env.root)
    ensures CovReply(st, Invoke(fn, vals, env, st), D, env.root)
    decreases Pos(st.ops), 2
  {
    hide OpenClosure, ParamNames, BindAll, Evaluate, Get, Error, Resolve, TreeCovered;
    CovFail(MISSING_ARGUMENT, "wrong number of arguments", D, env.root);
    CovFail(INVALID_EXPRESSION, "closure has no body", D, env.root);
    CovFail(NOT_FOUND, "cannot resolve hash", D, env.root);
    CovOpenClosure(fn, env, st, D);
    var c := OpenClosure(fn, env, st);
    if c.Open? && ParamNames(c.data).Some? {
      var ps, body := ParamNames(c.data).value, Resolve(Get(c.data, "body"), env, c.st);
      CovGet(c.data, "body", Null, D, env.root);
      if |ps| == |vals| && body.Some? {
        CovBindAll(c.scope, ps, vals, D, env.root);
        CovEvaluate(body.value, BindAll(c.scope, ps, vals), env, c.st, D);
      }
    }
  }

  // ---------------------------------------------------------------- builtins

  ghost predicate CovElems(es: seq<Value>, D: set<string>, root: string) {
    forall i | 0 <= i < |es| :: Cov(es[i], D, root)
  }

  ghost predicate CovAccum(acc: Accum, D: set<string>, root: string) {
    match acc
    case Items(items) => CovElems(items, D, root)
    case Folded(v) => Cov(v, D, root)
    case Groups(gs) => forall i | 0 <= i < |gs| :: Cov(gs[i].key, D, root) && CovElems(gs[i].members, D, root)
  }

  lemma {:induction false} CovAddToGroup(gs: seq<Group>, id: Value, key: Value, el: Value, D: set<string>, root: string)
    requires CovAccum(Groups(gs), D, root) && Cov(key, D, root) && Cov(el, D, root)
    ensures CovAccum(Groups(AddToGroup(gs, id, key, el)), D, root)
  {
    if gs != [] && gs[0].id != id {
      assert CovAccum(Groups(gs[1..]), D, root);
      CovAddToGroup(gs[1..], id, key, el, D, root);
    }
  }

  lemma CovAbsorb(b: Builtin, acc: Accum, el: Value, r: Value, D: set<string>, root: string)
    requires CovAccum(acc, D, root) && Cov(el, D, root) && Cov(r, D, root)
    ensures var a := Absorb(b, acc, el, r);
            (a.More? ==> CovAccum(a.acc, D, root)) && (a.Halt? ==> Cov(a.v, D, root))
  {
    hide Error, IsError, IsShortCircuitLimit, KeyId, AddToGroup, Truthy;
    CovFail(TYPE_MISMATCH, "group-by key is not encodable", D, root);
    if acc.Groups? && KeyId(r).Some? { CovAddToGroup(acc.groups, KeyId(r).value, r, el, D, root); }
  }

  lemma {:induction false} CovFinish(acc: Accum, D: set<string>, root: string)
    requires CovAccum(acc, D, root)
    ensures Cov(Finish(acc), D, root)
  {
    if acc.Groups? {
      CovGroupEntities(acc.groups, D, root);
    }
  }

  lemma CovGroupEntity(g: Group, D: set<string>, root: string)
    requires Cov(g.key, D, root) && CovElems(g.members, D, root)
    ensures Cov(GroupEntity(g), D, root)
  {
    var e := GroupEntity(g).entity;
    assert NodeOk(e, D, root);
    assert Cov(Arr(g.members), D, root);
    assert Cov(e.data, D, root);
    assert CovE(e, D, root);
  }

  lemma {:induction false} CovGroupEntities(gs: seq<Group>, D: set<string>, root: string)
    requires CovAccum(Groups(gs), D, root)
    ensures CovElems(GroupEntities(gs), D, root)
  {
    if gs != [] {
      CovGroupEntity(gs[0], D, root);
      assert CovAccum(Groups(gs[1..]), D, root);
      CovGroupEntities(gs[1..], D, root);
    }
  }

  lemma {:induction false} CovCollect(b: Builtin, fn: Value, els: seq<Value>, acc: Accum, env: Env, st: State,
      D: set<string>)
    requires TreeCovered(env, D) && Cov(fn, D, env.root) && CovElems(els, D, env.root) && CovAccum(acc, D, env.root)
    ensures CovReply(st, Collect(b, fn, els, acc, env, st), D, env.root)
    decreases Pos(st.ops), 3, |els|, 1
  {
    hide Invoke, CollectRest, Finish;
    if els == [] { CovFinish(acc, D, env.root); }
    else {
      var r := Invoke(fn, CallValues(acc, els[0]), env, st);
      CovInvoke(fn, CallValues(acc, els[0]), env, st, D);
      CovCollectRest(b, fn, els, acc, env, r, D);
    }
  }

  lemma {:induction false} CovCollectRest(b: Builtin, fn: Value, els: seq<Value>, acc: Accum, env: Env, reply: Reply,
      D: set<string>)
    requires els != [] && !reply.step.Tail?
    requires TreeCovered(env, D) && Cov(fn, D, env.root) && CovElems(els, D, env.root) && CovAccum(acc, D, env.root)
    requires CovStep(reply.step, D, env.root)
    ensures CovReply(reply.st, CollectRest(b, fn, els, acc, env, reply), D, env.root)
    decreases Pos(reply.st.ops), 3, |els|, 0
  {
    hide Collect, Absorb, AbsorbStores, Cov, CovE, CovElems, CovAccum, TreeCovered, Follows;
    if reply.step.Done? {
      var st := reply.st.(store := reply.st.store + AbsorbStores(acc, reply.step.v));
      CovSplit(els, D, env.root);
      CovAbsorb(b, acc, els[0], reply.step.v, D, env.root);
      var r := CollectRest(b, fn, els, acc, env, reply);
      var a := Absorb(b, acc, els[0], reply.step.v);
      if a.More? {
        CovCollect(b, fn, els[1..], a.acc, env, st, D);
        assert r == Collect(b, fn, els[1..], a.acc, env, st);
      } else {
        assert r == Reply(Done(a.v), st);
      }
    }
  }

  lemma CovSplit(els: seq<Value>, D: set<string>, root: string)
    requires els != [] && CovElems(els, D, root)
    ensures Cov(els[0], D, root) && CovElems(els[1..], D, root)
  {
  }

  ghost predicate CovJoined(j: Joined, D: set<string>, root: string) {
    (j.Joined? ==> CovElems(j.out, D, root)) && (j.Mismatch? ==> Cov(j.error, D, root))
  }

  lemma {:induction false} CovJoinElements(els: seq<Value>, out: seq<Value>, tag: Option<Tag>, D: set<string>,
      root: string)
    requires CovElems(els, D, root) && CovElems(out, D, root)
    ensures CovJoined(JoinElements(els, out, tag), D, root)
  {
    hide Error, TagOf, IsError;
    CovFail(TYPE_MISMATCH, "element types differ", D, root);
    if els != [] {
      CovJoinElements(els[1..], out + [els[0]], tag, D, root);
      CovJoinElements(els[1..], out + [els[0]], Some(TagOf(els[0])), D, root);
    }
  }

  lemma {:induction false} CovJoinCollections(subs: seq<Value>, out: seq<Value>, tag: Option<Tag>, D: set<string>,
      root: string)
    requires CovElems(subs, D, root) && CovElems(out, D, root)
    ensures CovJoined(JoinCollections(subs, out, tag), D, root)
  {
    hide Error, TagOf, IsError, JoinElements;
    CovFail(TYPE_MISMATCH, "each collection must be an array", D, root);
    if subs != [] && subs[0].Arr? {
      CovJoinElements(subs[0].elems, out, tag, D, root);
      match JoinElements(subs[0].elems, out, tag)
      case Mismatch(_) =>
      case Joined(o, t) => CovJoinCollections(subs[1..], o, t, D, root);
    }
  }

  lemma CovConcat(v: Value, D: set<string>, root: string)
    requires Cov(v, D, root)
    ensures Cov(ApplyConcat(v), D, root)
  {
    hide Error, JoinCollections;
    CovFail(TYPE_MISMATCH, "collections must be an array of arrays", D, root);
    if v.Arr? { CovJoinCollections(v.elems, [], None, D, root); }
  }

  lemma CovAssoc(args: Scope, D: set<string>, root: string)
    requires CovScope(args, D, root)
    ensures Cov(ApplyAssoc(args), D, root)
  {
    hide Error, Get;
    CovFail(TYPE_MISMATCH, "assoc collection must be an array", D, root);
    CovFail(TYPE_MISMATCH, "assoc index must be an integer", D, root);
    CovFail(INDEX_OUT_OF_RANGE, "assoc index out of range", D, root);
    CovFail(MISSING_ARGUMENT, "assoc requires a value", D, root);
    CovValue(args, "collection", D, root);
  }

  lemma CovCount(n: nat, D: set<string>, root: string)
    ensures Cov(Arr(Count(n)), D, root)
  {
  }

  lemma CovRange(n: Value, st: State, D: set<string>, root: string)
    ensures CovReply(st, EvalRange(n, st), D, root)
  {
    hide Error, Count;
    if n.Int? && n.i >= 0 { CovCount(n.i, D, root); }
    CovFail(TYPE_MISMATCH, "range n must be an integer", D, root);
    CovFail(COUNT_OUT_OF_RANGE, "range n must be representable", D, root);
    CovFail(BUDGET_EXHAUSTED, "range exceeds remaining budget", D, root);
  }

  lemma {:induction false} CovBuiltin(b: Builtin, args: Scope, env: Env, st: State, D: set<string>)
    requires TreeCovered(env, D) && CovScope(args, D, env.root)
    ensures CovReply(st, EvalBuiltin(b, args, env, st), D, env.root)
    decreases Pos(st.ops), 4, 0
  {
    hide Collect, Error, Get, EvalRange, ApplyConcat, ApplyAssoc;
    CovFail(TYPE_MISMATCH, "collection must be an array", D, env.root);
    CovValue(args, "collection", D, env.root);
    CovValue(args, "collections", D, env.root);
    CovValue(args, "fn", D, env.root);
    CovValue(args, "initial", D, env.root);
    CovRange(Get(Rec(args), "n"), st, D, env.root);
    CovConcat(Get(Rec(args), "collections"), D, env.root);
    CovAssoc(args, D, env.root);
    var collection, initial := Get(Rec(args), "collection"), Get(Rec(args), "initial");
    if collection.Arr? && (b.Map? || b.Filter? || b.Fold? || b.GroupBy?) {
      CovCollect(b, Get(Rec(args), "fn"), collection.elems, StartOf(b, initial), env, st, D);
    }
  }

  // ---------------------------------------------------------------- the theorem

  /**
   Every path an evaluation registers is one the walk found, provided the program is reference
   closed (builds no expressions, lookups are leaves) and what is bound at the predicted paths
   is itself covered.
   */
  lemma RegisteredIsPredicted(e: Entity, env: Env, st: State, walked: State, D: set<string>)
    requires ReferenceClosed(e, env, walked)
    requires forall p | Reaches(e, env, walked, p) :: p in D
    requires TreeCovered(env, D)
    ensures forall p | p in Evaluate(e, map[], env, st).st.deps :: p in st.deps || p in D
  {
    ClosedIsCovered(e, env, walked, D);
    CovEvaluate(e, map[], env, st, D);
  }

  /** Plain data: no expression, and nothing in it refers to one. */
  ghost predicate PlainData(e: Entity) {
    !IsExpressionType(e.typ) && NoLive(e.data) && Refs(e.data) == {}
  }

  lemma PlainIsCovered(e: Entity, D: set<string>, root: string)
    requires PlainData(e)
    ensures CovE(e, D, root)
  {
    CovPlain(e.data, D, root);
  }

  /** The walk-time and run-time sides together, for trees that hold plain data at the predicted paths. */
  method WalkPredicts(e: Entity, env: Env, walked: State, st: State) returns (deps: seq<string>)
    requires ReferenceClosed(e, env, walked)
    requires forall p | p in env.tree && Reaches(e, env, walked, p) :: PlainData(env.tree[p])
    ensures forall p | p in Evaluate(e, map[], env, st).st.deps :: p in st.deps || p in deps
  {
    hide Evaluate, ReferenceClosed, Reaches, Cov, Refs, NoLive, IsExpressionType;
    deps := WalkTreeLookups(e, env, walked);
    ghost var D := set p | p in deps;
    forall p | p in D && p in env.tree ensures CovE(env.tree[p], D, env.root) {
      PlainIsCovered(env.tree[p], D, env.root);
    }
    RegisteredIsPredicted(e, env, st, walked, D);
  }
}
