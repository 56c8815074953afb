/**
 The dependency walker, and the proof that it predicts every tree path an evaluation can register.
 */
module Dependencies {
  import opened Values
  import opened Integers
  import opened Materialize
  import opened Evaluator

  // ---------------------------------------------------------------- the walk

  /** The references an entity's data holds; only record data is walked. */
  function EntityRefs(e: Entity): set<Entity> {
    if e.data.Rec? then Refs(e.data) else {}
  }

  lemma EntityRefsDecrease(e: Entity, c: Entity)
    requires c in EntityRefs(e)
    ensures e decreases to c
  {
    RefsDecrease(e.data, c);
  }

  /** `p` is read by a tree lookup reachable from `e` through resolvable references. */
  ghost predicate Reaches(e: Entity, env: Env, st: State, p: string) {
    if e.typ.LookupTree? then LookupPath(e, env.root) == Some(p)
    else exists c ::
      c in EntityRefs(e) && Resolve(Hash(c), env, st).Some? && (EntityRefsDecrease(e, c); Reaches(c, env, st, p))
  }

  /**
   The depth-first walk with its visited set.  Entities already visited that lie below `e` have had
   their paths collected; the entities on the walk's own stack are above `e` and have not.
   */
  method WalkDeps(e: Entity, deps: seq<string>, visited: set<Entity>, env: Env, st: State)
    returns (deps': seq<string>, visited': set<Entity>)
    requires forall v, p | v in visited && (v == e || (e decreases to v)) && Reaches(v, env, st, p) :: p in deps
    ensures visited <= visited' && deps <= deps'
    ensures forall p | Reaches(e, env, st, p) :: p in deps'
    ensures forall p | p in deps' :: p in deps || Reaches(e, env, st, p)
    ensures forall v | v in visited' && v !in visited :: v == e || (e decreases to v)
    ensures forall v, p | v in visited' && v !in visited && Reaches(v, env, st, p) :: p in deps'
    decreases e
  {
    deps', visited' := deps, visited;
    if e in visited { return; }
    visited' := visited' + {e};
    if e.typ.LookupTree? {
      var path := LookupPath(e, env.root);
      if path.Some? { deps' := deps' + [path.value]; }
      return;
    }
    var todo := EntityRefs(e);
    while todo != {}
      invariant todo <= EntityRefs(e)
      invariant visited + {e} <= visited' && deps <= deps'
      invariant forall c, p | c in EntityRefs(e) && c !in todo && Resolve(Hash(c), env, st).Some?
        && Reaches(c, env, st, p) :: p in deps'
      invariant forall p | p in deps' :: p in deps || Reaches(e, env, st, p)
      invariant forall v | v in visited' && v !in visited :: v == e || (e decreases to v)
      invariant forall v, p | v in visited' && v !in visited && v != e && Reaches(v, env, st, p) :: p in deps'
    {
      var c :| c in todo;
      todo := todo - {c};
      EntityRefsDecrease(e, c);
      if Resolve(Hash(c), env, st).Some? {
        ghost var before := visited';
        deps', visited' := WalkDeps(c, deps', visited', env, st);
        assert forall v | v in visited' && v !in before :: e decreases to v;
      }
    }
  }

  /** `walk_tree_lookups`: exactly the paths of the reachable tree lookups. */
  method WalkTreeLookups(e: Entity, env: Env, st: State) returns (deps: seq<string>)
    ensures forall p :: p in deps <==> Reaches(e, env, st, p)
  {
    var visited;
    deps, visited := WalkDeps(e, [], {}, env, st);
  }

  // ---------------------------------------------------------------- statically predictable programs

  /** The type a construct builds is not that of an expression. */
  predicate BuildsPlain(t: Value) {
    t.Str? ==> !IsExpressionType(TypeNamed(t.s))
  }

  /** The inline-equivalent construct builtin: its type argument is a literal naming a plain type. */
  predicate AliasBuildsPlain(e: Entity) {
    ApplyTarget(e) == Some(Alias(Construct)) && ArgsOf(e).Some? && "entity_type" in ArgsOf(e).value ==>
      var t := ArgsOf(e).value["entity_type"];
      t.Hash? ==> t.target.typ.Literal? && BuildsPlain(Get(t.target.data, "value"))
  }

  /** What a node must satisfy for the walk to foresee it: it builds no expressions. */
  predicate BuildsNoCode(e: Entity) {
    && (e.typ.Construct? ==> BuildsPlain(GetOr(e.data, "entity_type", Str(""))))
    && (e.typ.Apply? ==> AliasBuildsPlain(e))
  }

  /**
   A reference-closed program: every reference below the root resolves, tree lookups are leaves,
   and no construct builds an expression.
   */
  ghost predicate ReferenceClosed(e: Entity, env: Env, st: State) {
    && e.data.Rec? && NoLive(e.data) && BuildsNoCode(e)
    && (e.typ.LookupTree? ==> Refs(e.data) == {})
    && forall c | c in EntityRefs(e) ::
      Resolve(Hash(c), env, st).Some? && (EntityRefsDecrease(e, c); ReferenceClosed(c, env, st))
  }

  // ---------------------------------------------------------------- covered values

  predicate NodeOk(e: Entity, D: set<string>, root: string) {
    && BuildsNoCode(e)
    && (e.typ.LookupTree? && LookupPath(e, root).Some? ==> LookupPath(e, root).value in D)
  }

  /** Every entity inside the value, live or referenced, only looks up paths of `D`. */
  ghost predicate Cov(v: Value, D: set<string>, root: string) {
    match v
    case Hash(e) => CovE(e, D, root)
    case Ent(e) => CovE(e, D, root)
    case Arr(es) => forall i | 0 <= i < |es| :: Cov(es[i], D, root)
    case Rec(m) => forall k | k in m :: Cov(m[k], D, root)
    case _ => true
  }

  ghost predicate CovE(e: Entity, D: set<string>, root: string) {
    NodeOk(e, D, root) && Cov(e.data, D, root)
  }

  ghost predicate CovScope(s: Scope, D: set<string>, root: string) {
    forall x | x in s :: Cov(s[x], D, root)
  }

  /** Every entity bound at a predicted path is itself covered; plain data is. */
  ghost predicate TreeCovered(env: Env, D: set<string>) {
    forall p | p in D && p in env.tree :: CovE(env.tree[p], D, env.root)
  }

  ghost predicate CovStep(s: Step, D: set<string>, root: string) {
    match s
    case Done(v) => Cov(v, D, root)
    case Tail(e, scope) => CovE(e, D, root) && CovScope(scope, D, root)
    case Abort(_) => true
  }

  predicate Predicted(st: State, st': State, D: set<string>) {
    forall p | p in st'.deps :: p in st.deps || p in D
  }

  ghost predicate CovReply(st: State, r: Reply, D: set<string>, root: string) {
    Predicted(st, r.st, D) && CovStep(r.step, D, root)
  }

  lemma {:induction false} CovFromRefs(v: Value, D: set<string>, root: string)
    requires NoLive(v) && forall c | c in Refs(v) :: CovE(c, D, root)
    ensures Cov(v, D, root)
  {
    match v
    case Arr(es) =>
      forall i | 0 <= i < |es| ensures Cov(es[i], D, root) {
        assert forall c | c in Refs(es[i]) :: c in Refs(v);
        CovFromRefs(es[i], D, root);
      }
    case Rec(m) =>
      forall k | k in m ensures Cov(m[k], D, root) {
        assert forall c | c in Refs(m[k]) :: c in Refs(v);
        CovFromRefs(m[k], D, root);
      }
    case _ =>
  }

  lemma CovError(D: set<string>, root: string)
    ensures forall code, message :: Cov(Error(code, message), D, root)
  {
    forall code, message ensures Cov(Error(code, message), D, root) {
      CovFromRefs(Error(code, message), D, root);
    }
  }

  /** A closed program whose reachable lookups all read paths of `D` is covered by `D`. */
  lemma {:induction false} ClosedIsCovered(e: Entity, env: Env, st: State, D: set<string>)
    requires ReferenceClosed(e, env, st)
    requires forall p | Reaches(e, env, st, p) :: p in D
    ensures CovE(e, D, env.root)
  {
    forall c | c in Refs(e.data) ensures CovE(c, D, env.root) {
      EntityRefsDecrease(e, c);
      forall p | Reaches(c, env, st, p) ensures p in D { assert Reaches(e, env, st, p); }
      ClosedIsCovered(c, env, st, D);
    }
    CovFromRefs(e.data, D, env.root);
  }

  // ---------------------------------------------------------------- pure operations keep coverage

  lemma CovGet(v: Value, key: string, default: Value, D: set<string>, root: string)
    requires Cov(v, D, root) && Cov(default, D, root)
    ensures Cov(Get(v, key), D, root) && Cov(GetOr(v, key, default), D, root)
  {
  }

  lemma CovErrorCode(v: Value, D: set<string>, root: string)
    requires Cov(v, D, root)
    ensures CovE(CodeOnly(v), D, root)
  {
    CovGet(v, "data", v, D, root);
    assert Cov(Rec(map[]), D, root);
    assert Cov(ErrorData(v), D, root);
    CovGet(ErrorData(v), "code", Str(""), D, root);
  }

  lemma {:induction false} CovBareField(v: Value, D: set<string>, root: string)
    requires Cov(v, D, root)
    ensures Cov(BareField(v), D, root)
    decreases v, 0
  {
    match v
    case Ent(e) => CovBareEntity(e, D, root);
    case Arr(es) => CovBareElements(es, D, root);
    case _ =>
  }

  lemma {:induction false} CovBareElements(es: seq<Value>, D: set<string>, root: string)
    requires forall i | 0 <= i < |es| :: Cov(es[i], D, root)
    ensures forall i | 0 <= i < |es| :: Cov(BareElements(es)[i], D, root)
    decreases es, 1
  {
    forall i | 0 <= i < |es| ensures Cov(BareElement(es[i]), D, root) {
      CovErrorCode(es[i], D, root);
      CovBareField(es[i], D, root);
    }
  }

  /** Materializing a field keeps its kind, and every value that is neither an entity nor an array. */
  predicate SameKind(v: Value, w: Value) {
    w == v || (v.Ent? && w.Hash?) || (v.Arr? && w.Arr?)
  }

  lemma BareReads(e: Entity, key: string)
    requires e.data.Rec?
    ensures var b := BareEntity(e);
            && b.typ == e.typ && b.data.Rec? && (key in b.data.fields <==> key in e.data.fields)
            && (key in e.data.fields ==> SameKind(e.data.fields[key], b.data.fields[key]))
  {
    var m := e.data.fields;
    assert BareEntity(e).data == Rec(map k | k in m :: BareField(m[k]));
  }

  lemma BarePath(e: Entity, root: string)
    requires e.data.Rec?
    ensures LookupPath(BareEntity(e), root) == LookupPath(e, root)
  {
    hide BareEntity, CleanPath;
    BareReads(e, "path");
    BareReads(e, "relative");
  }

  lemma BareBuilds(e: Entity)
    requires e.data.Rec? && BuildsNoCode(e)
    ensures BuildsNoCode(BareEntity(e))
  {
    hide BareEntity, BuiltinNamed, TypeNamed;
    BareReads(e, "entity_type");
    BareReads(e, "path");
    BareReads(e, "args");
    assert ApplyTarget(BareEntity(e)) == ApplyTarget(e);
    assert ArgsOf(e).Some? && ArgsOf(BareEntity(e)).Some? ==>
      ArgsOf(BareEntity(e)) == ArgsOf(e) || ArgsOf(BareEntity(e)) == Some(map[]);
  }

  /** Bare fields keep the kind, so a node means the same after materialization. */
  lemma NodeOkBare(e: Entity, D: set<string>, root: string)
    requires NodeOk(e, D, root)
    ensures NodeOk(BareEntity(e), D, root)
  {
    hide BuildsNoCode, LookupPath;
    if e.data.Rec? {
      BareReads(e, "path");
      BarePath(e, root);
      BareBuilds(e);
      hide BareEntity;
    } else {
      BareOther(e, root);
    }
  }

  lemma BareOther(e: Entity, root: string)
    requires !e.data.Rec?
    ensures BareEntity(e).typ == e.typ && LookupPath(BareEntity(e), root) == LookupPath(e, root)
    ensures BuildsNoCode(e) ==> BuildsNoCode(BareEntity(e))
  {
  }

  lemma {:induction false} CovBareEntity(e: Entity, D: set<string>, root: string)
    requires CovE(e, D, root)
    ensures CovE(BareEntity(e), D, root)
    decreases e, 1
  {
    NodeOkBare(e, D, root);
    match e.data
    case Arr(es) => CovBareElements(es, D, root);
    case Rec(m) => forall k | k in m ensures Cov(BareField(m[k]), D, root) { CovBareField(m[k], D, root); }
    case _ =>
  }

  lemma CovBare(v: Value, D: set<string>, root: string)
    requires Cov(v, D, root)
    ensures Cov(Bare(v), D, root)
  {
    if v.Ent? { CovBareEntity(v.entity, D, root); }
    if v.Arr? { CovBareElements(v.elems, D, root); }
  }

  lemma CovCaptureBinding(v: Value, D: set<string>, root: string)
    requires Cov(v, D, root)
    ensures Cov(CaptureBinding(v), D, root)
  {
    CovBare(v, D, root);
    CovBareField(v, D, root);
  }

  lemma CovCapture(s: Scope, D: set<string>, root: string)
    requires CovScope(s, D, root)
    ensures Cov(CaptureHash(s), D, root)
  {
    if s != map[] {
      var bs := CapturedBindings(s);
      forall x | x in bs ensures Cov(bs[x], D, root) { CovCaptureBinding(s[x], D, root); }
      assert Cov(Rec(bs), D, root);
      assert Cov(ScopeEntity(s).data, D, root);
    }
  }

  lemma CovNull(D: set<string>, root: string)
    ensures Cov(Null, D, root)
  {
  }

  lemma CovTarget(e: Entity, D: set<string>, root: string)
    requires Cov(Hash(e), D, root)
    ensures Cov(Ent(e), D, root)
  {
  }

  lemma LoadBindingCases(b: Value, available: set<Entity>)
    ensures var r, h := LoadBinding(b, available), Get(b, "entity_hash");
            || r == Bound(b, {}) || r == Bound(Get(b, "value"), {})
            || (h.Hash? && r == Bound(Ent(h.target), {h.target}))
            || (r.Unbound? && NoLive(r.error) && Refs(r.error) == {})
  {
    hide Error, Get;
  }

  lemma CovBinding(b: Value, available: set<Entity>, D: set<string>, root: string)
    requires Cov(b, D, root)
    ensures var r := LoadBinding(b, available);
            (r.Bound? ==> Cov(r.value, D, root)) && (r.Unbound? ==> Cov(r.error, D, root))
  {
    hide Cov, Get, LoadBinding, Refs, NoLive;
    LoadBindingCases(b, available);
    var r := LoadBinding(b, available);
    if r.Unbound? && Refs(r.error) == {} && NoLive(r.error) { CovFromRefs(r.error, D, root); }
    CovNull(D, root);
    CovGet(b, "value", Null, D, root);
    CovGet(b, "entity_hash", Null, D, root);
    if Get(b, "entity_hash").Hash? { CovTarget(Get(b, "entity_hash").target, D, root); }
  }

  ghost predicate CovLoad(r: LoadResult, D: set<string>, root: string) {
    match r
    case Loaded(s, _) => CovScope(s, D, root)
    case LoadError(error, _) => Cov(error, D, root)
    case LoadRaises => true
  }

  lemma {:induction false} CovLoadBindings(keys: seq<string>, bindings: map<string, Value>, available: set<Entity>,
                                           scope: Scope, marks: set<Entity>, D: set<string>, root: string)
    requires forall k | k in keys :: k in bindings && Cov(bindings[k], D, root)
    requires CovScope(scope, D, root)
    ensures CovLoad(LoadBindings(keys, bindings, available, scope, marks), D, root)
  {
    if keys != [] {
      CovBinding(bindings[keys[0]], available, D, root);
      match LoadBinding(bindings[keys[0]], available)
      case Unbound(_) =>
      case Bound(v, mark) => CovLoadBindings(keys[1..], bindings, available, scope[keys[0] := v], marks + mark, D,
        root);
    }
  }

  lemma CovLoadScope(env: Value, store: set<Entity>, included: set<Entity>, D: set<string>, root: string)
    requires Cov(env, D, root)
    ensures CovLoad(LoadScope(env, store, included), D, root)
  {
    CovError(D, root);
    if env.Hash? && env.target.data.Rec? {
      var bindings := Get(env.target.data, "bindings");
      CovGet(env.target.data, "bindings", Null, D, root);
      if bindings.Rec? {
        CovLoadBindings(CanonicalKeys(bindings.fields.Keys), bindings.fields, store + included, map[], {env.target},
          D, root);
      }
    }
  }

  lemma CovPlain(v: Value, D: set<string>, root: string)
    requires NoLive(v) && Refs(v) == {}
    ensures Cov(v, D, root)
  {
    CovFromRefs(v, D, root);
  }

  lemma CovReadField(target: Value, name: Value, D: set<string>, root: string)
    requires Cov(target, D, root)
    ensures CovStep(ReadField(target, name), D, root)
  {
    hide Error;
    var record := if target.Ent? then target.entity.data else target;
    assert Cov(record, D, root);
    if record.Rec? && !(name.Str? && name.s in record.fields) {
      CovPlain(Error(NOT_FOUND, "field not found"), D, root);
    }
    if !record.Rec? { CovPlain(Error(TYPE_MISMATCH, "field access requires an entity or record"), D, root); }
  }

  lemma CovValue(values: Scope, name: string, D: set<string>, root: string)
    requires CovScope(values, D, root)
    ensures Cov(Get(Rec(values), name), D, root)
  {
  }

  lemma CovCombine(e: Entity, values: Scope, D: set<string>, root: string)
    requires CovE(e, D, root) && CovScope(values, D, root) && e.data.Rec? && IsStrict(e.typ)
    ensures CovStep(Combine(e, values), D, root)
  {
    hide Error, ApplyArithmetic, ApplyCompare, ApplyNumericCast, ApplyLogic, ReadField, IsUintCast, TypeNamed, Get,
         GetOr;
    var r := Combine(e, values);
    match e.typ
    case Arithmetic => CovPlain(r.v, D, root);
    case Compare => CovPlain(r.v, D, root);
    case NumericCast => CovPlain(r.v, D, root);
    case Logic => CovPlain(r.v, D, root);
    case Length => CovPlain(r.v, D, root);
    case Field =>
      CovValue(values, "entity", D, root);
      CovReadField(Get(Rec(values), "entity"), GetOr(e.data, "name", Str("")), D, root);
    case Construct =>
      assert Cov(Rec(values), D, root);
      var t := GetOr(e.data, "entity_type", Str(""));
      if t.Str? {
        var built := Entity(TypeNamed(t.s), Rec(values));
        assert NodeOk(built, D, root) && Cov(built.data, D, root);
        assert CovE(built, D, root);
      }
  }
}
