/**
 Where the walk falls short: the two ways a program can reach a tree lookup the walk does not see.
 Both are excluded by the premises of `DependencySoundness.RegisteredIsPredicted`.
 */
module DependencyLimits {
  import T = Trampoline
  import opened Values
  import opened Integers
  import opened Materialize
  import opened Evaluator
  import opened Dependencies

  function LookupOf(path: string): Entity {
    Entity(LookupTree, Rec(map["path" := Str(path)]))
  }

  /** The state after `n` plain steps. */
  function Spent(st: State, n: nat): State {
    st.(ops := st.ops - n, steps := st.steps + n)
  }

  lemma LookupReads(path: string, scope: Scope, env: Env, st: State)
    requires env.root == "" && env.readable(path)
    ensures var r, read := Inner(LookupOf(path), scope, env, st), st.(deps := st.deps + [path]);
            if path !in env.tree then r == Fail(NOT_FOUND, "no entity at path", read)
            else
              var bound, marked := env.tree[path], read.(encountered := read.encountered + {env.tree[path]});
              bound in st.store && IsExpressionType(bound.typ) ==> r == Reply(Tail(bound, scope), marked)
  {
    hide Error;
    assert LookupPath(LookupOf(path), env.root) == Some(path);
  }

  /** One trampoline turn that ends in a tail call. */
  lemma TailTurn(e: Entity, scope: Scope, env: Env, st: State, next: Entity, scope': Scope, st': State)
    requires st.ops > 1 && Inner(e, scope, env, Spent(st, 1)) == Reply(Tail(next, scope'), st')
    ensures Trampoline(e, scope, env, st) == Trampoline(next, scope', env, st')
  {
    hide Trampoline, Inner, Error;
    T.Turn(e, scope, env, st);
  }

  lemma RunLookup(path: string, env: Env, st: State, bound: Entity)
    requires env.root == "" && env.readable(path) && path in env.tree && env.tree[path] == bound
    requires st.ops > 1 && bound in st.store && IsExpressionType(bound.typ)
    ensures var marked := st.(deps := st.deps + [path], encountered := st.encountered + {bound});
            Trampoline(LookupOf(path), map[], env, st) == Trampoline(bound, map[], env, Spent(marked, 1))
  {
    hide Error, Inner, LookupOf, Trampoline;
    LookupReads(path, map[], env, Spent(st, 1));
    var marked := Spent(st, 1).(deps := st.deps + [path], encountered := st.encountered + {bound});
    TailTurn(LookupOf(path), map[], env, st, bound, map[], marked);
    assert marked == Spent(st.(deps := st.deps + [path], encountered := st.encountered + {bound}), 1);
  }

  lemma MissingInner(path: string, env: Env, st: State)
    requires env.root == "" && env.readable(path) && path !in env.tree
    ensures var r := Inner(LookupOf(path), map[], env, st); r.step.Done? && r.st == st.(deps := st.deps + [path])
  {
    hide Error, Inner, LookupOf;
    LookupReads(path, map[], env, st);
  }

  lemma RunMissing(path: string, env: Env, st: State)
    requires env.root == "" && env.readable(path) && path !in env.tree && st.ops > 1
    ensures Trampoline(LookupOf(path), map[], env, st).st.deps == st.deps + [path]
  {
    hide Error, Trampoline, Inner, LookupOf, Follows, Keeps;
    MissingInner(path, env, Spent(st, 1));
    T.Turn(LookupOf(path), map[], env, st);
  }

  /**
   An expression bound in the tree: the walk treats the lookup as a leaf, the evaluator continues
   with the expression it finds and registers the second path too.
   */
  lemma TreeExpressionEscapesTheWalk(p: string, q: string, env: Env, st: State)
    requires env.root == "" && env.readable(p) && env.readable(q) && p != q
    requires p in env.tree && env.tree[p] == LookupOf(q) && q !in env.tree
    requires st.depth > 0 && st.ops > 2 && LookupOf(q) in st.store
    ensures ReferenceClosed(LookupOf(p), env, st)
    ensures Evaluate(LookupOf(p), map[], env, st).st.deps == st.deps + [p, q]
    ensures !Reaches(LookupOf(p), env, st, q)
  {
    hide Error, Trampoline, LookupPath;
    var start := st.(depth := st.depth - 1);
    RunLookup(p, env, start, LookupOf(q));
    var found := Spent(start.(deps := st.deps + [p], encountered := st.encountered + {LookupOf(q)}), 1);
    RunMissing(q, env, found);
    assert (st.deps + [p]) + [q] == st.deps + [p, q];
    LookupNames(p, env.root);
    LookupIsClosed(p, env, st);
  }

  lemma LookupNames(path: string, root: string)
    requires root == ""
    ensures LookupPath(LookupOf(path), root) == Some(path)
  {
  }

  lemma LookupIsClosed(path: string, env: Env, st: State)
    ensures ReferenceClosed(LookupOf(path), env, st)
  {
    var e := LookupOf(path);
    assert Refs(e.data) == {} && NoLive(e.data);
  }

  // ---------------------------------------------------------------- code built at run time

  function PathLiteral(): Entity { Entity(Literal, Rec(map["value" := Str("secret")])) }

  /** Builds a tree lookup out of data. */
  function BuildLookup(): Entity {
    Single("compute/lookup/tree", "path", PathLiteral())
  }

  /** Builds a closure whose body is that lookup. */
  function BuildClosure(): Entity {
    Single("compute/closure", "body", BuildLookup())
  }

  function ReadK(): Entity { Entity(LookupScope, Rec(map["name" := Str("k")])) }
  function CallK(): Entity { Entity(Apply, Rec(map["fn" := Hash(ReadK())])) }
  function Thunk(): Entity { Entity(Lambda, Rec(map["body" := Hash(CallK())])) }
  function CallThunk(): Entity { Entity(Apply, Rec(map["fn" := Hash(Thunk())])) }

  /** let k = closure { body: lookup secret } in (lambda: k())() */
  function BuildsCode(): Entity {
    Entity(Let, Rec(map["bindings" := Arr([Rec(map["name" := Str("k"), "value" := Hash(BuildClosure())])]),
                        "body" := Hash(CallThunk())]))
  }

  function Nodes(): set<Entity> {
    {PathLiteral(), BuildLookup(), BuildClosure(), ReadK(), CallK(), Thunk(), CallThunk()}
  }

  predicate Ready(env: Env, st: State) {
    env.hasAccess && env.included == {} && Nodes() <= st.store && st.depth >= 10 && st.ops >= 100
  }

  /** One trampoline turn that ends in a value. */
  lemma DoneTurn(e: Entity, scope: Scope, env: Env, st: State, r: Reply)
    requires st.depth > 0 && st.ops > 1
    requires r == Inner(e, scope, env, Spent(st.(depth := st.depth - 1), 1)) && r.step.Done?
    ensures Evaluate(e, scope, env, st) == r.(st := r.st.(depth := r.st.depth + 1))
  {
    hide Evaluate, Trampoline, Inner, Error;
    T.Entry(e, scope, env, st);
    T.Turn(e, scope, env, st.(depth := st.depth - 1));
  }

  lemma OneKey(k: string)
    ensures CanonicalKeys({k}) == [k]
  {
    var s := CanonicalKeys({k});
    assert |s| == 1 && s[0] in s;
  }

  /** A construct with a single field. */
  function Single(t: string, name: string, operand: Entity): Entity {
    Entity(Construct, Rec(map["entity_type" := Str(t), "fields" := Rec(map[name := Hash(operand)])]))
  }

  function SingleItem(name: string, operand: Entity): Item {
    Item(name, Hash(operand), INVALID_EXPRESSION, false)
  }

  lemma SingleItems(t: string, name: string, operand: Entity)
    ensures StrictItems(Single(t, name, operand)) == Some([SingleItem(name, operand)])
  {
    var m := map[name := Hash(operand)];
    OneKey(name);
    assert m.Keys == {name};
    assert CanonicalKeys(m.Keys) == [name];
    assert MapItems([name], m, {}) == [SingleItem(name, operand)];
    assert Get(Single(t, name, operand).data, "fields") == Rec(m);
  }

  lemma SingleCombines(t: string, name: string, operand: Entity, values: Scope)
    ensures Combine(Single(t, name, operand), values) == Done(Ent(Entity(TypeNamed(t), Rec(values))))
  {
    hide TypeNamed, ApplyArithmetic, ApplyCompare, ApplyNumericCast;
  }

  lemma OperandValue(operand: Entity, scope: Scope, env: Env, st: State, v: Value, st': State)
    requires env.hasAccess && env.included == {} && operand in st.store && !operand.typ.ErrorValue? && !IsError(v)
    requires Evaluate(operand, scope, env, st) == Reply(Done(v), st')
    ensures EvalOperand(Hash(operand), INVALID_EXPRESSION, false, scope, env, st) == OperandReply(Got(v), st')
  {
    hide Evaluate, IsError, Error;
  }

  lemma OneOperand(item: Item, grow: bool, acc: Scope, scope: Scope, env: Env, st: State, v: Value, st': State)
    requires item.Item?
    requires EvalOperand(item.ref, item.missing, item.contained, if grow then acc else scope, env, st) ==
      OperandReply(Got(v), st')
    ensures EvalOperands([item], grow, acc, scope, env, st) == OperandsReply(All(acc[item.name := v]), st')
  {
    hide EvalOperand;
    assert EvalOperands([], grow, acc[item.name := v], scope, env, st') == OperandsReply(All(acc[item.name := v]), st');
  }

  /** A single-field construct whose operand evaluates to `v` in `n` steps. */
  lemma ConstructOne(t: string, name: string, operand: Entity, scope: Scope, env: Env, st: State, v: Value, n: nat)
    requires st.depth > 1 && st.ops > 1 && env.hasAccess && env.included == {} && operand in st.store
    requires !operand.typ.ErrorValue? && !IsError(v)
    requires Evaluate(operand, scope, env, Spent(st.(depth := st.depth - 1), 1)) ==
             Reply(Done(v), Spent(st.(depth := st.depth - 1), 1 + n))
    ensures Evaluate(Single(t, name, operand), scope, env, st) ==
            Reply(Done(Ent(Entity(TypeNamed(t), Rec(map[name := v])))), Spent(st, 1 + n))
  {
    hide TypeNamed, Evaluate, Error, IsError, EvalOperand, EvalOperands, StrictItems, Combine;
    var e := Single(t, name, operand);
    var st1, st2 := Spent(st.(depth := st.depth - 1), 1), Spent(st.(depth := st.depth - 1), 1 + n);
    SingleItems(t, name, operand);
    OperandValue(operand, scope, env, st1, v, st2);
    OneOperand(SingleItem(name, operand), false, map[], scope, env, st1, v, st2);
    SingleCombines(t, name, operand, map[name := v]);
    assert map[][name := v] == map[name := v];
    var r := Reply(Done(Ent(Entity(TypeNamed(t), Rec(map[name := v])))), st2);
    assert EvalStrict(e, scope, env, st1) == r;
    DoneTurn(e, scope, env, st, r);
  }

  /** The live closure the first binding evaluates to. */
  function LiveClosure(): Value { Ent(Entity(Closure, Rec(map["body" := Ent(LookupOf("secret"))]))) }

  lemma EvalBinding(env: Env, st: State)
    requires Ready(env, st)
    ensures Evaluate(BuildClosure(), map[], env, st) == Reply(Done(LiveClosure()), Spent(st, 3))
  {
    hide Evaluate, Inner, LookupOf, Single;
    var st1 := Spent(st.(depth := st.depth - 1), 1);
    EvalPathLiteral(env, Spent(st1.(depth := st1.depth - 1), 1));
    ConstructOne("compute/lookup/tree", "path", PathLiteral(), map[], env, st1, Str("secret"), 1);
    assert LookupOf("secret") == Entity(TypeNamed("compute/lookup/tree"), Rec(map["path" := Str("secret")]))
      by { LookupIs(); }
    assert BuildLookup().typ.Construct? by { BuildTypes(); }
    ConstructOne("compute/closure", "body", BuildLookup(), map[], env, st, Ent(LookupOf("secret")), 2);
    assert TypeNamed("compute/closure") == Closure;
  }

  lemma EvalPathLiteral(env: Env, st: State)
    requires st.depth > 0 && st.ops > 1
    ensures Evaluate(PathLiteral(), map[], env, st) == Reply(Done(Str("secret")), Spent(st, 1))
  {
    hide Evaluate;
    var st1 := Spent(st.(depth := st.depth - 1), 1);
    DoneTurn(PathLiteral(), map[], env, st, Reply(Done(Str("secret")), st1));
  }

  lemma LookupIs()
    ensures LookupOf("secret") == Entity(TypeNamed("compute/lookup/tree"), Rec(map["path" := Str("secret")]))
  {
  }

  lemma BuildTypes()
    ensures BuildLookup().typ.Construct? && BuildClosure().typ.Construct?
  {
  }

  /** Applying a zero-parameter closure: the body becomes a tail call in the closure's scope. */
  lemma CallTurn(fn: Entity, scope: Scope, env: Env, st: State, c: Value, st1: State, captured: Scope, st2: State,
      body: Entity)
    requires fn in st.store && env.hasAccess && env.included == {} && !fn.typ.ErrorValue? && !IsError(c)
    requires Evaluate(fn, scope, env, st) == Reply(Done(c), st1)
    requires OpenClosure(c, env, st1) == Open(DataOf(c), captured, st2)
    requires ParamNames(DataOf(c)) == Some([]) && Get(DataOf(c), "body") == Hash(body)
    requires body in st2.store && !body.typ.ErrorValue?
    ensures Inner(Entity(Apply, Rec(map["fn" := Hash(fn)])), scope, env, st) == Reply(Tail(body, captured), st2)
  {
    hide Evaluate, Error, IsError, EvalOperand, EvalOperands, OpenClosure, ParamNames, EvalApplyHandler, Keeps,
         Follows, Resolve;
    var e := Entity(Apply, Rec(map["fn" := Hash(fn)]));
    assert Get(e.data, "fn") == Hash(fn) && Get(e.data, "path") == Null && ArgsOf(e) == Some(map[]);
    OperandValue(fn, scope, env, st, c, st1);
    assert ParamItems([], map[]) == [];
    NoOperands(captured, scope, env, st2);
    assert TailTo(Hash(body), captured, env, st2) == Reply(Tail(body, captured), st2)
      by { TailToStored(body, captured, env, st2); }
    assert EvalApplyClosure(e, scope, env, st) == TailTo(Hash(body), captured, env, st2);
    assert EvalApply(e, scope, env, st) == EvalApplyClosure(e, scope, env, st);
  }

  lemma NoOperands(acc: Scope, scope: Scope, env: Env, st: State)
    ensures EvalOperands([], false, acc, scope, env, st) == OperandsReply(All(acc), st)
  {
  }

  lemma TailToStored(body: Entity, scope: Scope, env: Env, st: State)
    requires env.hasAccess && env.included == {} && body in st.store && !body.typ.ErrorValue?
    ensures TailTo(Hash(body), scope, env, st) == Reply(Tail(body, scope), st)
  {
    hide Error;
  }

  function ScopeK(): Scope { map["k" := LiveClosure()] }

  /** What the captured binding comes back as: the lookup is now a stored entity behind a hash. */
  function LoadedClosure(): Value { Ent(Entity(Closure, Rec(map["body" := Hash(LookupOf("secret"))]))) }

  lemma BareOfLookup()
    ensures BareEntity(LookupOf("secret")) == LookupOf("secret") && !EntityRaises(LookupOf("secret"))
  {
    var m := LookupOf("secret").data.fields;
    assert (map k | k in m :: BareField(m[k])) == m;
  }

  lemma BareOfClosure()
    ensures Bare(LiveClosure()) == LoadedClosure() && LookupOf("secret") in Puts(LiveClosure())
      && !Raises(LiveClosure())
  {
    hide LookupOf;
    BareOfLookup();
    var look, fields := LookupOf("secret"), LiveClosure().entity.data.fields;
    assert fields["body"] == Ent(look);
    assert (map k | k in fields :: BareField(fields[k])) == map["body" := Hash(look)];
    assert look in FieldPuts(fields["body"]);
  }

  lemma BareOfLive()
    ensures Bare(LiveClosure()) == LoadedClosure()
    ensures !CaptureRaises(ScopeK())
    ensures MaterializedScope(ScopeK()) == map["k" := LoadedClosure()]
    ensures LookupOf("secret") in CapturePuts(ScopeK())
  {
    hide Bare, LiveClosure, LoadedClosure, LookupOf, Puts, Raises, CaptureMarks;
    BareOfClosure();
    assert ScopeK()["k"] == LiveClosure();
  }

  /** The state in which the thunk has been built and its captured scope loaded again. */
  function Captured(st: State): State {
    st.(store := st.store + CapturePuts(ScopeK()), encountered := st.encountered + CaptureMarks(ScopeK()))
  }

  lemma EvalThunk(env: Env, st: State)
    requires st.depth > 0 && st.ops > 1
    ensures Evaluate(Thunk(), ScopeK(), env, st) ==
      Reply(Done(Ent(MakeClosure(Thunk(), ScopeK()))), Captured(Spent(st, 1)))
  {
    hide CapturePuts, CaptureMarks, ScopeK, Inner, Thunk, MakeClosure, Evaluate;
    var st1 := Spent(st.(depth := st.depth - 1), 1);
    ThunkInner(env, st1);
    DoneTurn(Thunk(), ScopeK(), env, st, Reply(Done(Ent(MakeClosure(Thunk(), ScopeK()))), Captured(st1)));
  }

  lemma ThunkInner(env: Env, st: State)
    ensures Inner(Thunk(), ScopeK(), env, st) == Reply(Done(Ent(MakeClosure(Thunk(), ScopeK()))), Captured(st))
  {
    hide CaptureRaises, CapturePuts, CaptureMarks, CaptureHash, ScopeK, MakeClosure, Keeps;
    BareOfLive();
    assert Inner(Thunk(), ScopeK(), env, st) == EvalLambda(Thunk(), ScopeK(), st);
  }

  lemma OpenThunk(env: Env, st: State) returns (marks: set<Entity>)
    requires env.included == {}
    ensures var c, st1 := Ent(MakeClosure(Thunk(), ScopeK())), Captured(st);
            && OpenClosure(c, env, st1) ==
              Open(DataOf(c), map["k" := LoadedClosure()], st1.(encountered := st1.encountered + marks))
            && ParamNames(DataOf(c)) == Some([]) && Get(DataOf(c), "body") == Hash(CallK())
  {
    hide CapturePuts, CaptureMarks, CaptureHash, ScopeK, LoadScope;
    var c, st1 := MakeClosure(Thunk(), ScopeK()), Captured(st);
    BareOfLive();
    assert CaptureMarks(ScopeK()) <= st1.store by { MarksArePut(ScopeK()); }
    assert ScopeK() != map[] by { OneBinding(); }
    StoredIsMarked(ScopeK());
    LoadOfCapture(ScopeK(), st1.store, {});
    marks := LoadScope(CaptureHash(ScopeK()), st1.store, {}).marks;
    assert Get(c.data, "env") == CaptureHash(ScopeK());
    assert Get(c.data, "body") == Hash(CallK());
    assert GetOr(c.data, "params", Arr([])) == Arr([]);
    assert AllStrings([]) && Names([]) == [];
  }

  lemma OneBinding()
    ensures ScopeK() != map[]
  {
    assert "k" in ScopeK();
  }

  lemma MarksArePut(s: Scope)
    ensures CaptureMarks(s) <= CapturePuts(s)
  {
  }

  lemma OpenLoaded(env: Env, st: State)
    ensures var c := LoadedClosure();
            && OpenClosure(c, env, st) == Open(DataOf(c), map[], st.(encountered := st.encountered + {}))
            && ParamNames(DataOf(c)) == Some([]) && Get(DataOf(c), "body") == Hash(LookupOf("secret"))
  {
    hide LookupOf;
    var c := LoadedClosure();
    assert Get(c.entity.data, "env") == Null;
    assert GetOr(c.entity.data, "params", Arr([])) == Arr([]);
    assert AllStrings([]) && Names([]) == [];
  }

  lemma EvalReadK(scope: Scope, env: Env, st: State, v: Value)
    requires st.depth > 0 && st.ops > 1 && "k" in scope && scope["k"] == v
    ensures Evaluate(ReadK(), scope, env, st) == Reply(Done(v), Spent(st, 1))
  {
    hide Error;
    assert GetOr(ReadK().data, "name", Str("")) == Str("k");
    var r := Inner(ReadK(), scope, env, Spent(st.(depth := st.depth - 1), 1));
    DoneTurn(ReadK(), scope, env, st, r);
  }

  lemma LookupRegisters(path: string, env: Env, st: State)
    requires env.root == "" && env.readable(path) && st.ops > 1
    ensures path in Trampoline(LookupOf(path), map[], env, st).st.deps
  {
    hide Error, EvalLookupTree, Trampoline, Inner;
    var charged := Spent(st, 1);
    RegistersPath(path, env, charged);
    LookupInner(path, env, charged);
    T.Turn(LookupOf(path), map[], env, st);
    var r := Inner(LookupOf(path), map[], env, charged);
    assert path in r.st.deps;
    if r.step.Tail? {
      var rest := Trampoline(r.step.next, r.step.scope, env, r.st);
      assert r.st.deps <= rest.st.deps;
    }
  }

  lemma LookupInner(path: string, env: Env, st: State)
    ensures Inner(LookupOf(path), map[], env, st) == EvalLookupTree(LookupOf(path), map[], env, st)
  {
    hide Error, EvalLookupTree;
  }

  lemma RegistersPath(path: string, env: Env, st: State)
    requires env.root == "" && env.readable(path)
    ensures path in EvalLookupTree(LookupOf(path), map[], env, st).st.deps
  {
    hide Error;
    LookupNames(path, env.root);
    assert path in st.deps + [path];
  }

  function Binding(): Value { Rec(map["name" := Str("k"), "value" := Hash(BuildClosure())]) }

  lemma BindingItem()
    ensures LetItems([Binding()]) == [Item("k", Hash(BuildClosure()), INVALID_EXPRESSION, false)]
  {
    hide BuildClosure;
    assert LetItem(Binding()) == Item("k", Hash(BuildClosure()), INVALID_EXPRESSION, false);
    assert LetItems([Binding()]) == [LetItem(Binding())] + LetItems([]);
  }

  lemma BindingOperands(env: Env, st: State)
    requires Ready(env, st)
    ensures EvalOperands(LetItems([Binding()]), true, map[], map[], env, st) ==
      OperandsReply(All(ScopeK()), Spent(st, 3))
  {
    hide Evaluate, EvalOperand, EvalOperands, IsError, BuildClosure, LiveClosure, Binding, LetItems;
    BindingItem();
    EvalBinding(env, st);
    LiveIsNoError();
    CallThunkType();
    OperandValue(BuildClosure(), map[], env, st, LiveClosure(), Spent(st, 3));
    var item := Item("k", Hash(BuildClosure()), INVALID_EXPRESSION, false);
    OneOperand(item, true, map[], map[], env, st, LiveClosure(), Spent(st, 3));
    assert map[]["k" := LiveClosure()] == ScopeK();
  }

  lemma LetTurn(env: Env, st: State)
    requires Ready(env, st)
    ensures Inner(BuildsCode(), map[], env, st) == Reply(Tail(CallThunk(), ScopeK()), Spent(st, 3))
  {
    hide Evaluate, Error, EvalOperands, CallThunk, TailTo, LetItems, Binding, ScopeK, Keeps;
    var e := BuildsCode();
    BindingOperands(env, st);
    CallThunkType();
    TailToStored(CallThunk(), ScopeK(), env, Spent(st, 3));
    BuildsCodeData();
    assert EvalLet(e, map[], env, st) == TailTo(Hash(CallThunk()), ScopeK(), env, Spent(st, 3));
  }

  lemma BuildsCodeData()
    ensures var e := BuildsCode();
            e.typ.Let? && e.data.Rec? && GetOr(e.data, "bindings", Arr([])) == Arr([Binding()]) &&
            Get(e.data, "body") == Hash(CallThunk())
  {
  }

  lemma CallThunkType()
    ensures CallThunk().typ.Apply? && BuildClosure().typ.Construct?
  {
  }

  lemma LiveIsNoError()
    ensures !IsError(LiveClosure()) && !IsError(LoadedClosure()) && !IsError(Ent(MakeClosure(Thunk(), ScopeK())))
  {
  }

  /**
   Code built at run time: a construct makes a tree lookup, capturing it stores it, and the
   reloaded closure runs it.  No tree lookup is reachable from the program at all.
   */
  lemma BuiltCodeEscapesTheWalk(env: Env, st: State)
    requires Ready(env, st) && st.depth > 10 && st.ops > 100 && env.root == "" && env.readable("secret")
    ensures "secret" in Evaluate(BuildsCode(), map[], env, st).st.deps
    ensures forall p :: !Reaches(BuildsCode(), env, st, p)
    ensures !BuildsNoCode(BuildLookup())
  {
    hide Evaluate, Trampoline, Inner, Error, ScopeK, CapturePuts, CaptureMarks, MakeClosure, OpenClosure, ParamNames,
         IsError, BuildsCode, CallThunk, CallK, Thunk, ReadK;
    var s0 := st.(depth := st.depth - 1);
    LetTurn(env, Spent(s0, 1));
    TailTurn(BuildsCode(), map[], env, s0, CallThunk(), ScopeK(), Spent(s0, 4));
    LiveIsNoError();
    var s1 := Spent(s0, 5);
    EvalThunk(env, s1);
    var marks := OpenThunk(env, Spent(s1, 1));
    var loaded := Captured(Spent(s1, 1));
    var s2 := loaded.(encountered := loaded.encountered + marks);
    ThunkTurn(env, s1, marks);
    TailTurn(CallThunk(), ScopeK(), env, Spent(s0, 4), CallK(), map["k" := LoadedClosure()], s2);
    BareOfLive();
    KTurn(env, Spent(s2, 1));
    var s3 := Spent(s2, 2);
    TailTurn(CallK(), map["k" := LoadedClosure()], env, s2, LookupOf("secret"), map[], s3);
    LookupRegisters("secret", env, s3);
    EvaluateIsTrampoline(BuildsCode(), env, st);
    NothingReachable(env, st);
    BuildsLookup();
  }

  lemma EvaluateIsTrampoline(e: Entity, env: Env, st: State)
    requires st.depth > 0
    ensures Evaluate(e, map[], env, st) == Trampoline(e, map[], env, st.(depth := st.depth - 1))
  {
    hide Evaluate, Trampoline, Error;
    T.Entry(e, map[], env, st);
  }

  lemma BuildsLookup()
    ensures !BuildsNoCode(BuildLookup())
  {
    assert GetOr(BuildLookup().data, "entity_type", Str("")) == Str("compute/lookup/tree");
  }

  lemma ThunkTurn(env: Env, st: State, marks: set<Entity>)
    requires env.hasAccess && env.included == {} && Nodes() <= st.store && st.depth > 0 && st.ops > 1
    requires var c, st1 := Ent(MakeClosure(Thunk(), ScopeK())), Captured(Spent(st, 1));
             && OpenClosure(c, env, st1) ==
               Open(DataOf(c), map["k" := LoadedClosure()], st1.(encountered := st1.encountered + marks))
             && ParamNames(DataOf(c)) == Some([]) && Get(DataOf(c), "body") == Hash(CallK())
    ensures var st1 := Captured(Spent(st, 1));
            Inner(CallThunk(), ScopeK(), env, st) ==
            Reply(Tail(CallK(), map["k" := LoadedClosure()]), st1.(encountered := st1.encountered + marks))
  {
    hide Evaluate, Inner, Error, ScopeK, CapturePuts, CaptureMarks, MakeClosure, OpenClosure, ParamNames, IsError;
    var st1 := Captured(Spent(st, 1));
    EvalThunk(env, st);
    LiveIsNoError();
    CallTurn(Thunk(), ScopeK(), env, st, Ent(MakeClosure(Thunk(), ScopeK())), st1,
             map["k" := LoadedClosure()], st1.(encountered := st1.encountered + marks), CallK());
  }

  lemma KTurn(env: Env, st: State)
    requires env.hasAccess && env.included == {} && ReadK() in st.store && LookupOf("secret") in st.store
    requires st.depth > 0 && st.ops > 1
    ensures Inner(CallK(), map["k" := LoadedClosure()], env, st) == Reply(Tail(LookupOf("secret"), map[]), Spent(st, 1))
  {
    hide Evaluate, Inner, Error, OpenClosure, ParamNames, IsError;
    var scope := map["k" := LoadedClosure()];
    EvalReadK(scope, env, st, LoadedClosure());
    OpenLoaded(env, Spent(st, 1));
    LiveIsNoError();
    assert Spent(st, 1).(encountered := Spent(st, 1).encountered + {}) == Spent(st, 1);
    CallTurn(ReadK(), scope, env, st, LoadedClosure(), Spent(st, 1), map[], Spent(st, 1), LookupOf("secret"));
  }

  // ---------------------------------------------------------------- nothing to walk

  lemma FnRefs(t: Type, key: string, e: Entity)
    ensures EntityRefs(Entity(t, Rec(map[key := Hash(e)]))) == {e}
  {
    assert Refs(Hash(e)) == {e};
    var m := map[key := Hash(e)];
    assert m[key] == Hash(e);
  }

  lemma SingleRefs(t: string, name: string, e: Entity)
    ensures EntityRefs(Single(t, name, e)) == {e}
  {
    FnRefs(Apply, name, e);
    var m := Single(t, name, e).data.fields;
    assert m["fields"] == Rec(map[name := Hash(e)]) && m["entity_type"] == Str(t);
    assert Refs(m["fields"]) == {e} && Refs(m["entity_type"]) == {};
    forall x | x in EntityRefs(Single(t, name, e)) ensures x == e {
      var k :| k in m && x in Refs(m[k]);
      assert k == "fields" || k == "entity_type";
    }
  }

  lemma LetRefs(x: Entity)
    requires x in EntityRefs(BuildsCode())
    ensures x == BuildClosure() || x == CallThunk()
  {
    hide BuildClosure, CallThunk;
    var b := map["name" := Str("k"), "value" := Hash(BuildClosure())];
    var m := BuildsCode().data.fields;
    assert m["bindings"] == Arr([Rec(b)]) && m["body"] == Hash(CallThunk());
    var k :| k in m && x in Refs(m[k]);
    if k == "bindings" {
      assert x in Refs(Arr([Rec(b)]));
      var i :| 0 <= i < 1 && x in Refs([Rec(b)][i]);
      assert x in Refs(Rec(b));
      var j :| j in b && x in Refs(b[j]);
      assert b["name"] == Str("k") && b["value"] == Hash(BuildClosure());
      assert j == "name" || j == "value";
    } else {
      assert k == "body";
    }
  }

  /** A node that is not a lookup and refers only to nodes from which nothing is reached reaches nothing. */
  lemma ReachesNothing(e: Entity, env: Env, st: State)
    requires !e.typ.LookupTree?
    requires forall c, p | c in EntityRefs(e) :: !Reaches(c, env, st, p)
    ensures forall p :: !Reaches(e, env, st, p)
  {
  }

  lemma NothingReachable(env: Env, st: State)
    ensures forall p :: !Reaches(BuildsCode(), env, st, p)
  {
    hide Reaches, EntityRefs, Refs, Single;
    assert EntityRefs(PathLiteral()) == {} by { LeafRefs("value", "secret"); }
    ReachesNothing(PathLiteral(), env, st);
    SingleRefs("compute/lookup/tree", "path", PathLiteral());
    SingleIsNoLookup("compute/lookup/tree", "path", PathLiteral());
    ReachesNothing(BuildLookup(), env, st);
    SingleRefs("compute/closure", "body", BuildLookup());
    SingleIsNoLookup("compute/closure", "body", BuildLookup());
    ReachesNothing(BuildClosure(), env, st);
    assert EntityRefs(ReadK()) == {} by { LeafRefs("name", "k"); }
    ReachesNothing(ReadK(), env, st);
    FnRefs(Apply, "fn", ReadK());
    ReachesNothing(CallK(), env, st);
    FnRefs(Lambda, "body", CallK());
    ReachesNothing(Thunk(), env, st);
    FnRefs(Apply, "fn", Thunk());
    ReachesNothing(CallThunk(), env, st);
    forall c, p | c in EntityRefs(BuildsCode()) ensures !Reaches(c, env, st, p) { LetRefs(c); }
    ReachesNothing(BuildsCode(), env, st);
  }

  lemma SingleIsNoLookup(t: string, name: string, e: Entity)
    ensures !Single(t, name, e).typ.LookupTree?
  {
  }

  lemma LeafRefs(key: string, s: string)
    ensures forall t :: EntityRefs(Entity(t, Rec(map[key := Str(s)]))) == {}
  {
    var m := map[key := Str(s)];
    assert forall k | k in m :: Refs(m[k]) == {};
  }
}
