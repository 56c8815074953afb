/**
 What the forms do at their edges: which references resolve, what a tree read may see and what it leaves
 behind, the values that need no evaluation, where errors are placed and where they stop a form, and the
 builtins that work on values alone.
 */
module FormLaws {
  import T = Trampoline
  import opened Values
  import opened Integers
  import opened Materialize
  import opened Evaluator
  import opened BudgetMonotonicity
  import opened BigStep
  import opened BuiltinRules

  function CodeOf(v: Value): Value { Get(ErrorData(v), "code") }

  /** An error value with this code. */
  predicate Fails(v: Value, code: string) { IsError(v) && CodeOf(v) == Str(code) }

  /** The two representations of an error: an entity of the error type, and a record that says it is one. */
  lemma ErrorsAre(v: Value)
    ensures IsError(v) <==>
            || (v.Ent? && v.entity.typ == TypeNamed("compute/error"))
            || (v.Rec? && "type" in v.fields && v.fields["type"] == Str("compute/error"))
    ensures v.Ent? && v.entity.data.Rec? ==> ErrorData(v) == v.entity.data
    ensures v.Rec? && "data" in v.fields && v.fields["data"].Rec? ==> ErrorData(v) == v.fields["data"]
    ensures v.Rec? && "data" !in v.fields ==> ErrorData(v) == v
  {
    if v.Rec? && "type" in v.fields && v.fields["type"].Str? { OneName(v.fields["type"].s); }
  }

  lemma OneName(s: string)
    ensures TypeNamed(s) == ErrorValue <==> s == "compute/error"
  {
  }

  // ---------------------------------------------------------------- references

  /**
   A reference resolves, to the entity it addresses, if and only if that is in the envelope, or is stored and
   may be read: under content store access, as a sealed entity, or, for the types of compute, when it was met
   in a tree read or is bound in the tree.  In the envelope too other types ask for access or a seal.
   */
  lemma ResolvesIff(e: Entity, env: Env, st: State)
    ensures Resolve(Hash(e), env, st) == Some(e) <==>
            if e in env.included then env.hasAccess || e in env.authorized || !e.typ.Named?
            else e in st.store &&
                 (env.hasAccess || e in env.authorized ||
                  (!e.typ.Named? && (e in st.encountered || exists p :: p in env.tree && env.tree[p] == e)))
    ensures Resolve(Hash(e), env, st) in {None, Some(e)}
  {
  }

  lemma OnlyHashesResolve(ref: Value, env: Env, st: State)
    ensures Resolve(ref, env, st).Some? ==> ref.Hash?
  {
  }

  // ---------------------------------------------------------------- tree reads

  function TreeLookupOf(path: string, relative: bool): Entity {
    Entity(LookupTree, Rec(map["path" := Str(path), "relative" := Bool(relative)]))
  }

  /** The path a lookup reads: its own, or, when it is relative and there is a root, that below the root. */
  function PathRead(path: string, relative: bool, root: string): string {
    if relative && root != "" then CleanPath(root + "/" + path) else path
  }

  /** The parts of a path between its slashes, empty ones left out. */
  function Parts(p: string): seq<string> { PartsFrom("", p) }

  function PartsFrom(begun: string, p: string): seq<string>
    decreases |p|
  {
    if p == "" then (if begun == "" then [] else [begun])
    else if p[0] == '/' then (if begun == "" then [] else [begun]) + PartsFrom("", p[1..])
    else PartsFrom(begun + [p[0]], p[1..])
  }

  lemma {:induction false} CollapseKeepsParts(begun: string, p: string)
    ensures PartsFrom(begun, CollapseSlashes(p)) == PartsFrom(begun, p)
    decreases |p|
  {
    if |p| > 1 {
      if p[0] == '/' && p[1] == '/' {
        CollapseKeepsParts(begun, p[1..]);
        assert p[1..][0] == '/' && p[1..][1..] == p[2..];
        assert PartsFrom("", p[1..]) == PartsFrom("", p[2..]);
      } else {
        var q := CollapseSlashes(p);
        assert q[0] == p[0] && q[1..] == CollapseSlashes(p[1..]);
        CollapseKeepsParts(if p[0] == '/' then "" else begun + [p[0]], p[1..]);
      }
    }
  }

  lemma {:induction false} TrailingSlash(begun: string, p: string)
    ensures PartsFrom(begun, p + "/") == PartsFrom(begun, p)
    decreases |p|
  {
    if p == "" {
      assert (p + "/")[1..] == "";
    } else {
      assert (p + "/")[1..] == p[1..] + "/";
      TrailingSlash(if p[0] == '/' then "" else begun + [p[0]], p[1..]);
    }
  }

  lemma {:induction false} StripKeepsParts(p: string)
    ensures Parts(StripTrailingSlashes(p)) == Parts(p)
    ensures var q := StripTrailingSlashes(p); q <= p && (q != "" ==> q[|q| - 1] != '/')
    decreases |p|
  {
    if |p| > 0 && p[|p| - 1] == '/' {
      var front := p[..|p| - 1];
      assert front + "/" == p;
      TrailingSlash("", front);
      StripKeepsParts(front);
    }
  }

  lemma {:induction false} CollapseLeavesNoRun(p: string)
    ensures var q := CollapseSlashes(p);
            && (forall i | 0 <= i < |q| - 1 :: !(q[i] == '/' && q[i + 1] == '/'))
            && (p != "" ==> q != "" && q[0] == p[0])
    decreases |p|
  {
    if |p| > 1 { CollapseLeavesNoRun(p[1..]); }
  }

  /** A cleaned path has the same parts, no run of slashes and none at its end. */
  lemma CleanPathKeepsParts(p: string)
    ensures var q := CleanPath(p);
            && Parts(q) == Parts(p)
            && (forall i | 0 <= i < |q| - 1 :: !(q[i] == '/' && q[i + 1] == '/'))
            && (q != "" ==> q[|q| - 1] != '/')
  {
    CollapseKeepsParts("", p);
    CollapseLeavesNoRun(p);
    StripKeepsParts(CollapseSlashes(p));
  }

  lemma {:induction false} PartsAcross(begun: string, p: string, q: string)
    ensures PartsFrom(begun, p + "/" + q) == PartsFrom(begun, p) + PartsFrom("", q)
    decreases |p|
  {
    var all := p + "/" + q;
    if p == "" {
      assert all[0] == '/' && all[1..] == q;
    } else {
      assert all[0] == p[0] && all[1..] == p[1..] + "/" + q;
      PartsAcross(if p[0] == '/' then "" else begun + [p[0]], p[1..], q);
    }
  }

  /** A relative lookup reads below the root, part for part. */
  lemma RelativeIsBelowRoot(path: string, root: string)
    requires root != ""
    ensures Parts(PathRead(path, true, root)) == Parts(root) + Parts(path)
  {
    CleanPathKeepsParts(root + "/" + path);
    PartsAcross("", root, path);
  }

  lemma PathReadIs(path: string, relative: bool, root: string)
    ensures LookupPath(TreeLookupOf(path, relative), root) == Some(PathRead(path, relative, root))
  {
    var e := TreeLookupOf(path, relative);
    assert GetOr(e.data, "path", Str("")) == Str(path) && Get(e.data, "relative") == Bool(relative);
  }

  /** The dispatch of a tree lookup. */
  lemma TreeLookupInner(e: Entity, p: string, scope: Scope, env: Env, st: State)
    requires e.typ.LookupTree? && e.data.Rec? && LookupPath(e, env.root) == Some(p)
    ensures var r := Inner(e, scope, env, st);
            if !env.readable(p) then r.step.Done? && Fails(r.step.v, PERMISSION_DENIED) && r.st == st
            else
              var read := st.(deps := st.deps + [p]);
              if p !in env.tree then r.step.Done? && Fails(r.step.v, NOT_FOUND) && r.st == read
              else
                var met := read.(encountered := read.encountered + {env.tree[p]});
                && r.st == met
                && (env.tree[p] !in st.store ==> r.step.Done? && Fails(r.step.v, NOT_FOUND))
                && (env.tree[p] in st.store ==>
                      r.step == if IsExpressionType(env.tree[p].typ) then Tail(env.tree[p], scope)
                                else Done(Ent(env.tree[p])))
  {
  }

  /**
   A tree read.  Without permission nothing is read and nothing registered.  With it the path is registered
   whatever is there; an unbound path, or one whose entity is not stored, is not found; a value comes back as
   it is, and an expression is evaluated in its place.
   */
  lemma TreeRead(path: string, relative: bool, scope: Scope, env: Env, st: State)
    requires st.depth > 0 && st.ops > 1
    ensures var p := PathRead(path, relative, env.root);
            var r := Evaluate(TreeLookupOf(path, relative), scope, env, st);
            var charged := st.(ops := st.ops - 1, steps := st.steps + 1);
            if !env.readable(p) then r.step.Done? && Fails(r.step.v, PERMISSION_DENIED) && r.st == charged
            else
              var read := charged.(deps := st.deps + [p]);
              if p !in env.tree then r.step.Done? && Fails(r.step.v, NOT_FOUND) && r.st == read
              else
                var bound := env.tree[p];
                var met := read.(encountered := st.encountered + {bound});
                if bound !in st.store then r.step.Done? && Fails(r.step.v, NOT_FOUND) && r.st == met
                else if IsExpressionType(bound.typ) then r == Evaluate(bound, scope, env, met)
                else r == Reply(Done(Ent(bound)), met)
  {
    hide Evaluate, Trampoline, Inner, TreeLookupOf, LookupPath, PathRead, IsError, ErrorData, Error, Keeps, Follows;
    var e := TreeLookupOf(path, relative);
    var p := PathRead(path, relative, env.root);
    PathReadIs(path, relative, env.root);
    assert e.typ.LookupTree? && e.data.Rec? by { TreeLookupType(path, relative); }
    TreeLookupInner(e, p, scope, env, Charged(st));
    if Inner(e, scope, env, Charged(st)).step.Done? {
      DoneTurn(e, scope, env, st);
    } else {
      ContinueTurn(e, scope, env, st, env.tree[p]);
    }
  }

  lemma TreeLookupType(path: string, relative: bool)
    ensures TreeLookupOf(path, relative).typ.LookupTree? && TreeLookupOf(path, relative).data.Rec?
  {
  }

  lemma ContinueTurn(e: Entity, scope: Scope, env: Env, st: State, next: Entity)
    requires st.depth > 0 && st.ops > 1 && Inner(e, scope, env, Charged(st)).step == Tail(next, scope)
    requires Inner(e, scope, env, Charged(st)).st.depth == st.depth - 1 >= 0
    ensures Evaluate(e, scope, env, st) ==
            Evaluate(next, scope, env, Inner(e, scope, env, Charged(st)).st.(depth := st.depth))
  {
    hide Evaluate, Trampoline, Inner, Error;
    var r := Inner(e, scope, env, Charged(st));
    var entered := st.(depth := st.depth - 1);
    assert entered.(ops := entered.ops - 1).(steps := entered.steps + 1) == Charged(st);
    T.Entry(e, scope, env, st);
    T.Turn(e, scope, env, entered);
    var st' := r.st.(depth := st.depth);
    assert st'.(depth := st'.depth - 1) == r.st;
    T.Entry(next, scope, env, st');
  }

  /** A hash lookup gives what the hash addresses, evaluated if it is an expression; it registers nothing. */
  lemma HashRead(target: Entity, scope: Scope, env: Env, st: State)
    requires st.depth > 0 && st.ops > 1
    ensures var r := Evaluate(Entity(LookupHash, Rec(map["hash" := Hash(target)])), scope, env, st);
            var charged := st.(ops := st.ops - 1, steps := st.steps + 1);
            if Resolve(Hash(target), env, st) == None then
              r.step.Done? && Fails(r.step.v, NOT_FOUND) && r.st == charged
            else if IsExpressionType(target.typ) then r == Evaluate(target, scope, env, charged)
            else r == Reply(Done(Ent(target)), charged)
  {
    hide Evaluate, Trampoline, Inner, IsError, ErrorData, Error, Keeps, Follows;
    var e := Entity(LookupHash, Rec(map["hash" := Hash(target)]));
    HashLookupInner(e, target, scope, env, Charged(st));
    if Inner(e, scope, env, Charged(st)).step.Done? {
      DoneTurn(e, scope, env, st);
    } else {
      ContinueTurn(e, scope, env, st, target);
    }
  }

  lemma HashLookupInner(e: Entity, target: Entity, scope: Scope, env: Env, st: State)
    requires e == Entity(LookupHash, Rec(map["hash" := Hash(target)]))
    ensures var r := Inner(e, scope, env, st);
            && r.st == st
            && (Resolve(Hash(target), env, st) == None ==> r.step.Done? && Fails(r.step.v, NOT_FOUND))
            && (Resolve(Hash(target), env, st).Some? ==>
                  r.step == if IsExpressionType(target.typ) then Tail(target, scope) else Done(Ent(target)))
  {
    assert Get(e.data, "hash") == Hash(target);
  }

  /**
   Reading and resolving are different: without content store access a reference to a stored literal resolves
   because some path binds it, readable or not.
   */
  lemma BoundAnywhereResolves(p: string, v: Value, env: Env, st: State)
    requires !env.hasAccess && env.included == {} && env.authorized == {} && !env.readable(p)
    requires env.tree == map[p := Lit(v)] && Lit(v) in st.store && Lit(v) !in st.encountered
    requires st.depth > 0 && st.ops > 2
    ensures var e, env' := Entity(LookupHash, Rec(map["hash" := Hash(Lit(v))])), env.(tree := map[]);
            && (forall q | env.readable(q) :: q !in env.tree && q !in env'.tree)
            && Evaluate(e, map[], env, st).step == Done(v)
            && var r := Evaluate(e, map[], env', st); r.step.Done? && Fails(r.step.v, NOT_FOUND)
  {
    hide Evaluate, Fails, Lit;
    var env' := env.(tree := map[]);
    assert IsExpressionType(Lit(v).typ) && !Lit(v).typ.Named? by { LiteralType(v); }
    assert env.tree[p] == Lit(v);
    ResolvesIff(Lit(v), env, st);
    ResolvesIff(Lit(v), env', st);
    HashRead(Lit(v), map[], env, st);
    HashRead(Lit(v), map[], env', st);
    LiteralTurn(v, env, st.(ops := st.ops - 1, steps := st.steps + 1));
  }

  lemma LiteralType(v: Value)
    ensures Lit(v).typ == Literal
  {
  }

  lemma LiteralTurn(v: Value, env: Env, st: State)
    requires st.depth > 0 && st.ops > 1
    ensures Evaluate(Lit(v), map[], env, st).step == Done(v)
  {
    hide Evaluate, Error;
    assert Get(Lit(v).data, "value") == v;
    assert Inner(Lit(v), map[], env, Charged(st)).step == Done(v);
    hide Inner;
    DoneTurn(Lit(v), map[], env, st);
  }

  // ---------------------------------------------------------------- values and unknown types

  /** Closures, scopes, results and errors are values; what is neither a value nor an expression is unknown. */
  lemma ValuesAreThemselves(e: Entity, scope: Scope, env: Env, st: State)
    requires st.depth > 0 && st.ops > 1
    ensures var r := Evaluate(e, scope, env, st);
            && (e.typ in {Closure, ScopeValue, ResultValue, ErrorValue} ==> r.step == Done(Ent(e)))
            && (e.typ.Named? || e.typ in {Subgraph, InstallRequest, InstallResult} ==>
                  r.step.Done? && Fails(r.step.v, UNKNOWN_TYPE))
  {
    hide Evaluate, Trampoline, IsError, ErrorData, Error, Keeps, Follows;
    if !IsExpressionType(e.typ) {
      ValueInner(e, scope, env, Charged(st));
      hide Inner;
      DoneTurn(e, scope, env, st);
    }
  }

  lemma ValueInner(e: Entity, scope: Scope, env: Env, st: State)
    ensures var r := Inner(e, scope, env, st);
            && (e.typ in {Closure, ScopeValue, ResultValue, ErrorValue} ==> r.step == Done(Ent(e)))
            && (e.typ.Named? || e.typ in {Subgraph, InstallRequest, InstallResult} ==>
                  r.step.Done? && Fails(r.step.v, UNKNOWN_TYPE))
  {
  }

  // ---------------------------------------------------------------- operands

  /** How an operand that is not there, is no reference, does not resolve or is an error entity ends its form. */
  lemma OperandFailures(ref: Value, missing: string, contained: bool, scope: Scope, env: Env, st: State)
    ensures var r := EvalOperand(ref, missing, contained, scope, env, st);
            && (ref.Null? ==> r.st == st && r.out.Stop? && r.out.step.Done? && Fails(r.out.step.v, missing))
            && (!ref.Null? && !IsBytes(ref) ==>
                  r.st == st && r.out.Stop? && r.out.step.Done? && Fails(r.out.step.v, INVALID_EXPRESSION))
            && (IsBytes(ref) && Resolve(ref, env, st).None? ==>
                  r.st == st && r.out.Stop? && r.out.step.Done? && Fails(r.out.step.v, NOT_FOUND))
            && (ref.Hash? && Resolve(ref, env, st).Some? && ref.target.typ.ErrorValue? && !contained ==>
                  r.st == st && r.out == Stop(Done(Ent(ref.target))))
  {
    hide Evaluate, Resolve, Keeps, Follows;
    assert Resolve(ref, env, st).Some? ==> ref == Hash(Resolve(ref, env, st).value);
  }

  /** A contained operand delivers the error it evaluates to. */
  lemma ContainedErrorIsDelivered(e: Entity, missing: string, scope: Scope, env: Env, st: State)
    requires Resolve(Hash(e), env, st) == Some(e) && Evaluate(e, scope, env, st).step.Done?
    ensures EvalOperand(Hash(e), missing, true, scope, env, st) ==
            OperandReply(Got(Evaluate(e, scope, env, st).step.v), Evaluate(e, scope, env, st).st)
  {
    hide Evaluate, Resolve, Keeps, Follows;
  }

  /** A parameter without an argument stops the call. */
  lemma MissingArgument(p: string, ps: seq<string>, args: map<string, Value>, acc: Scope, scope: Scope, env: Env,
      st: State)
    requires p !in args
    ensures var r := EvalOperands(ParamItems([p] + ps, args), false, acc, scope, env, st);
            r.st == st && r.out.Early? && r.out.step.Done? && Fails(r.out.step.v, MISSING_ARGUMENT)
  {
    hide Evaluate, Error, IsError, ErrorData, Keeps, Follows, EvalOperand;
    var items := ParamItems([p] + ps, args);
    assert items[0] == Item(p, Null, MISSING_ARGUMENT, false);
    OperandFailures(Null, MISSING_ARGUMENT, false, scope, env, st);
  }

  /** A let binding without a name stops the let, whatever its value; the bindings before it are in effect. */
  lemma NamelessBinding(b: map<string, Value>, bs: seq<Value>, acc: Scope, env: Env, st: State)
    requires Get(Rec(b), "name").Null?
    ensures var r := EvalOperands(LetItems([Rec(b)] + bs), true, acc, acc, env, st);
            r.st == st && r.out.Early? && r.out.step.Done? && Fails(r.out.step.v, INVALID_EXPRESSION)
  {
    hide Evaluate, Error, IsError, ErrorData, Keeps, Follows, EvalOperand;
    assert LetItems([Rec(b)] + bs)[0] == Item("", Null, INVALID_EXPRESSION, false);
    OperandFailures(Null, INVALID_EXPRESSION, false, acc, env, st);
  }

  /** A closure that is called with values takes as many as it has parameters. */
  lemma WrongArity(fn: Value, vals: seq<Value>, env: Env, st: State, ps: seq<string>)
    requires var o := OpenClosure(fn, env, st); o.Open? && ParamNames(o.data) == Some(ps) && |ps| != |vals|
    ensures var r := Invoke(fn, vals, env, st); r.step.Done? && Fails(r.step.v, MISSING_ARGUMENT)
  {
    hide Evaluate, OpenClosure, ParamNames, Keeps, Follows;
  }

  /** Values are bound to the parameters in order, a repeated one to its last; other names keep their values. */
  lemma {:induction false} BindsInOrder(scope: Scope, ps: seq<string>, vals: seq<Value>)
    requires |ps| == |vals|
    ensures var r := BindAll(scope, ps, vals);
            && (forall x | x in scope && x !in ps :: x in r && r[x] == scope[x])
            && (forall x | x in r :: x in scope || x in ps)
            && (forall i | 0 <= i < |ps| && ps[i] !in ps[i + 1..] :: ps[i] in r && r[ps[i]] == vals[i])
    decreases |ps|
  {
    if ps != [] {
      var qs, r := ps[1..], BindAll(scope, ps, vals);
      BindsInOrder(scope[ps[0] := vals[0]], qs, vals[1..]);
      assert forall x :: x in ps <==> x == ps[0] || x in qs;
      forall i | 0 <= i < |ps| && ps[i] !in ps[i + 1..] ensures ps[i] in r && r[ps[i]] == vals[i] {
        if i > 0 {
          assert qs[i - 1] == ps[i] && qs[i..] == ps[i + 1..];
          assert qs[i - 1] !in qs[i - 1 + 1..];
        }
      }
    }
  }

  /** Only closures can be called. */
  lemma OnlyClosuresOpen(fn: Value, env: Env, st: State)
    requires TypeOf(fn) != Some(Closure)
    ensures var o := OpenClosure(fn, env, st);
            o.Closed? && o.st == st && o.step.Done? && Fails(o.step.v, TYPE_MISMATCH)
  {
  }

  // ---------------------------------------------------------------- what closures leave met

  /** A lambda marks what its scope leads to as met, so that it resolves later, and opening it does so again. */
  lemma CaptureIsMet(e: Entity, scope: Scope, st: State)
    requires !CaptureRaises(scope)
    ensures var met := if scope == map[] then {}
                       else {ScopeEntity(scope)} + set x | x in scope && scope[x].Ent? :: BareEntity(scope[x].entity);
            var r := EvalLambda(e, scope, st);
            r.st.encountered == st.encountered + met && met <= r.st.store && r.st.deps == st.deps
  {
    hide CaptureRaises, ScopeEntity, BareEntity, Puts;
  }

  lemma OpeningIsMet(ps: seq<string>, body: Entity, s: Scope, env: Env, st: State)
    requires CaptureMarks(s) <= st.store
    ensures var o := OpenClosure(ClosureOf(ps, body, s), env, st);
            o.Open? && o.st == st.(encountered := st.encountered + CaptureMarks(s))
  {
    hide LoadScope, CaptureHash, CaptureMarks, Error;
    if s != map[] { StoredIsMarked(s); }
    LoadOfCapture(s, st.store, env.included);
    var data := MakeClosure(Lam(ps, body), s).data;
    assert Get(data, "env") == CaptureHash(s);
  }

  /** A scope that holds an error entity cannot be captured. */
  lemma ErrorScopeRaises(e: Entity, scope: Scope, x: string, st: State)
    requires x in scope && scope[x].Ent? && scope[x].entity.typ.ErrorValue?
    ensures EvalLambda(e, scope, st) == Reply(Abort(Raised), st)
  {
    assert Raises(scope[x]);
  }

  /** A closure whose scope does not load does not open, but what was loaded is met all the same. */
  lemma UnloadedScope(data: Value, env: Env, st: State, error: Value, marks: set<Entity>)
    requires data.Rec? && LoadScope(Get(data, "env"), st.store, env.included) == LoadError(error, marks)
    ensures OpenClosure(Ent(Entity(Closure, data)), env, st) ==
            Closed(Done(error), st.(encountered := st.encountered + marks))
  {
    hide LoadScope;
  }

  // ---------------------------------------------------------------- bodies and branches

  /** What a tail position leads to: an expression to go on with, an error entity, or an error. */
  lemma TailAnswers(ref: Value, scope: Scope, env: Env, st: State)
    ensures var r := TailTo(ref, scope, env, st);
            && r.st == st
            && (!IsBytes(ref) ==> r.step.Done? && Fails(r.step.v, INVALID_EXPRESSION))
            && (IsBytes(ref) && Resolve(ref, env, st).None? ==> r.step.Done? && Fails(r.step.v, NOT_FOUND))
            && (ref.Hash? && Resolve(ref, env, st).Some? ==>
                  r.step == if ref.target.typ.ErrorValue? then Done(Ent(ref.target)) else Tail(ref.target, scope))
  {
    hide Resolve;
    assert Resolve(ref, env, st).Some? ==> ref == Hash(Resolve(ref, env, st).value);
  }

  /** The body of a called closure: without one the call is malformed, and what is no hash is not found. */
  lemma BodyAnswers(body: Value, inner: Scope, env: Env, st: State)
    requires !Unhashable(body)
    ensures var r := CallBody(body, inner, env, st);
            && (body.Null? ==> r.step.Done? && Fails(r.step.v, INVALID_EXPRESSION))
            && (!body.Null? && !IsBytes(body) ==> r.step.Done? && Fails(r.step.v, NOT_FOUND))
            && (IsBytes(body) ==> r == TailTo(body, inner, env, st))
  {
    hide Resolve;
  }

  /** The body of a closure called with values: it must be a hash that resolves, and an error entity is the result. */
  lemma InvokedBodyAnswers(fn: Value, vals: seq<Value>, env: Env, st: State, ps: seq<string>)
    requires var o := OpenClosure(fn, env, st); o.Open? && ParamNames(o.data) == Some(ps) && |ps| == |vals|
    ensures var o, r := OpenClosure(fn, env, st), Invoke(fn, vals, env, st);
            var body := Get(o.data, "body");
            && (!IsBytes(body) ==> r.step.Done? && Fails(r.step.v, INVALID_EXPRESSION))
            && (IsBytes(body) && Resolve(body, env, o.st).None? ==> r.step.Done? && Fails(r.step.v, NOT_FOUND))
            && (body.Hash? && Resolve(body, env, o.st).Some? && body.target.typ.ErrorValue? ==>
                  r == Reply(Done(Ent(body.target)), o.st))
  {
    hide Evaluate, OpenClosure, ParamNames, Resolve, Keeps, Follows;
    var o := OpenClosure(fn, env, st);
    assert var body := Get(o.data, "body");
      Resolve(body, env, o.st).Some? ==> body == Hash(Resolve(body, env, o.st).value);
  }

  /** A builtin form without its operator is the inline form without one. */
  lemma AliasWithoutOperator(form: Type, args: map<string, Value>, scope: Scope, env: Env, st: State)
    requires form in {Arithmetic, Compare, Logic, Field, Construct} && (forall k | k in args :: IsBytes(args[k]))
    requires (if form.Construct? then "entity_type" else if form.Field? then "name" else "op") !in args
    ensures EvalAlias(form, args, scope, env, st) ==
            Reply(Tail(Entity(form, Rec(if form.Construct?
                                        then map["fields" := Rec(args), "entity_type" := Str("")] else args)), scope),
                                          st)
  {
    hide EvalOperand, Keeps, Follows;
    assert args - {"entity_type"} == args || "entity_type" in args;
  }

  // ---------------------------------------------------------------- errors in collections

  /** The two errors that stop a collection even where errors are contained. */
  lemma LimitCodes(v: Value)
    ensures IsShortCircuitLimit(v) <==> IsError(v) && CodeOf(v) in {Str("budget_exhausted"), Str("cascade_limit")}
  {
  }

  /**
   What a result does to the element loop.  `map` and `fold` contain errors and stop on a limit only; `filter`
   and `group-by` stop on every error.
   */
  lemma ResultStops(b: Builtin, fn: Value, els: seq<Value>, acc: Accum, env: Env, v: Value, st: State)
    requires els != [] && b in {Map, Filter, Fold, GroupBy}
    requires acc.Folded? <==> b.Fold?
    requires acc.Groups? <==> b.GroupBy?
    requires if b in {Map, Fold} then IsShortCircuitLimit(v) else IsError(v)
    ensures CollectRest(b, fn, els, acc, env, Reply(Done(v), st)) == Reply(Done(v), st)
  {
    hide Collect, IsError, IsShortCircuitLimit, KeyId, Keeps, Follows;
    assert IsShortCircuitLimit(v) ==> IsError(v) by { LimitCodes(v); }
    assert st.(store := st.store + {}) == st;
  }

  /** And what it does when it does not stop. */
  lemma ResultGoesOn(b: Builtin, fn: Value, els: seq<Value>, acc: Accum, env: Env, v: Value, st: State)
    requires els != [] && b in {Map, Filter, Fold} && (acc.Folded? <==> b.Fold?) && !acc.Groups?
    requires if b in {Map, Fold} then !IsShortCircuitLimit(v) else !IsError(v)
    ensures CollectRest(b, fn, els, acc, env, Reply(Done(v), st)) ==
            Collect(b, fn, els[1..],
                    if b.Fold? then Folded(v)
                    else if b.Map? then Items(acc.items + [v])
                    else Items(if Truthy(v) then acc.items + [els[0]] else acc.items), env, st)
  {
    hide Collect, IsError, IsShortCircuitLimit, Truthy, Keeps, Follows;
    assert st.(store := st.store + {}) == st;
  }

  /** A fold whose initial value is a limit error is that error; any other initial error is folded. */
  lemma FoldInitial(args: Scope, env: Env, st: State)
    requires Get(Rec(args), "collection").Arr?
    ensures var initial := Get(Rec(args), "initial");
            EvalBuiltin(Fold, args, env, st) ==
            if IsShortCircuitLimit(initial) then Reply(Done(initial), st)
            else Collect(Fold, Get(Rec(args), "fn"), Get(Rec(args), "collection").elems, Folded(initial), env, st)
  {
    hide Collect, IsShortCircuitLimit, Keeps, Follows;
  }

  /** The positions of the builtins whose argument may be an error, by their names. */
  lemma ContainedPositions(path: string)
    ensures ContainedArgs(BuiltinNamed(path)) ==
            if path == "system/compute/builtins/fold" then {"initial"}
            else if path == "system/compute/builtins/assoc" || path == "system/compute/builtins/store" then {"value"}
            else {}
  {
    if HasBuiltinPrefix(path) {
      assert path == BUILTIN_PREFIX + path[|BUILTIN_PREFIX|..];
      assert "system/compute/builtins/fold"[|BUILTIN_PREFIX|..] == "fold";
      assert "system/compute/builtins/assoc"[|BUILTIN_PREFIX|..] == "assoc";
      assert "system/compute/builtins/store"[|BUILTIN_PREFIX|..] == "store";
    }
  }

  // ---------------------------------------------------------------- builtins on values

  /** `assoc` replaces one element and keeps the others; outside the array it is out of range. */
  lemma AssocReplaces(collection: seq<Value>, i: int, v: Value)
    ensures var r := ApplyAssoc(map["collection" := Arr(collection), "index" := Int(i), "value" := v]);
            if 0 <= i < |collection| then
              r.Arr? && |r.elems| == |collection|
              && forall j | 0 <= j < |collection| :: r.elems[j] == if j == i then v else collection[j]
            else Fails(r, INDEX_OUT_OF_RANGE)
  {
    var args := map["collection" := Arr(collection), "index" := Int(i), "value" := v];
    assert args["collection"] == Arr(collection) && args["index"] == Int(i) && args["value"] == v;
  }

  lemma AssocFails(args: Scope)
    ensures !Get(Rec(args), "collection").Arr? || !Get(Rec(args), "index").Int? ==>
              Fails(ApplyAssoc(args), TYPE_MISMATCH)
    ensures Get(Rec(args), "collection").Arr? && Get(Rec(args), "index").Int? && "value" !in args &&
            0 <= Get(Rec(args), "index").i < |Get(Rec(args), "collection").elems| ==>
              Fails(ApplyAssoc(args), MISSING_ARGUMENT)
  {
  }

  /** A group can be read: its key under `key`, its members under `members`. */
  lemma GroupReads(g: Group)
    ensures var v := GroupEntity(g);
            && v.Ent? && v.entity.typ == Named("system/compute/group")
            && ReadField(v, Str("key")) == Done(g.key) && ReadField(v, Str("members")) == Done(Arr(g.members))
            && forall name: string :: name in v.entity.data.fields ==> name in {"key", "members"}
  {
    var m := map["key" := g.key, "members" := Arr(g.members)];
    assert m["key"] == g.key && m["members"] == Arr(g.members);
  }

  /** Reading a field of what has none, or not that one. */
  lemma FieldFails(target: Value, name: string)
    ensures var record := if target.Ent? then target.entity.data else target;
            var r := ReadField(target, Str(name));
            && (!record.Rec? ==> r.Done? && Fails(r.v, TYPE_MISMATCH))
            && (record.Rec? && name !in record.fields ==> r.Done? && Fails(r.v, NOT_FOUND))
            && (record.Rec? && name in record.fields ==> r == Done(record.fields[name]))
  {
  }

  /** The element classes `concat` tells apart: a signed and an unsigned integer are one, and so are all byte
      strings. */
  lemma ElementClasses(v: Value, w: Value)
    requires !v.Rec? && !w.Rec?
    ensures TagOf(v) == TagOf(w) <==>
            || (v.Null? && w.Null?) || (v.Bool? && w.Bool?) || (v.Int? && w.Int?) || (v.Flt? && w.Flt?)
            || (v.Str? && w.Str?) || ((v.Bytes? || v.Hash?) && (w.Bytes? || w.Hash?)) || (v.Arr? && w.Arr?)
            || (v.Ent? && w.Ent? && v.entity.typ == w.entity.typ)
  {
  }

  /** A record is of the class of the entities of the type it names, and a plain one only of its like. */
  lemma RecordClasses(m: map<string, Value>, w: Value)
    ensures "type" in m && m["type"].Str? && w.Ent? ==>
              (TagOf(Rec(m)) == TagOf(w) <==> w.entity.typ == TypeNamed(m["type"].s))
    ensures "type" !in m ==> (TagOf(Rec(m)) == TagOf(w) <==> w.Rec? && "type" !in w.fields)
  {
  }

  /** `range` asks for a count that an array can have and that the budget still pays for. */
  lemma RangeAnswers(n: Value, st: State)
    ensures var r := EvalRange(n, st);
            if !n.Int? then r.step.Done? && Fails(r.step.v, TYPE_MISMATCH) && r.st == st
            else if !(0 <= n.i < 0x8000_0000_0000_0000) then
              r.step.Done? && Fails(r.step.v, COUNT_OUT_OF_RANGE) && r.st == st
            else if st.ops < n.i then
              r.step.Done? && Fails(r.step.v, BUDGET_EXHAUSTED) && r.st == st.(tripped := true)
            else
              && r.step.Done? && r.step.v.Arr? && |r.step.v.elems| == n.i
              && (forall i | 0 <= i < n.i :: r.step.v.elems[i] == Int(i)) && r.st.ops == st.ops - n.i
  {
  }

  /** The collection builtins work on arrays. */
  lemma CollectionFails(b: Builtin, args: Scope, env: Env, st: State)
    requires b in {Map, Filter, Fold, GroupBy} && !Get(Rec(args), "collection").Arr?
    ensures var r := EvalBuiltin(b, args, env, st); r.step.Done? && Fails(r.step.v, TYPE_MISMATCH) && r.st == st
  {
    hide Collect, Keeps, Follows;
  }

  /** A builtin form of an operation takes references only, and evaluates none when one is not. */
  lemma AliasTakesReferences(form: Type, args: map<string, Value>, k: string, scope: Scope, env: Env, st: State)
    requires k in args && !IsBytes(args[k])
    ensures var r := EvalAlias(form, args, scope, env, st);
            r.step.Done? && Fails(r.step.v, INVALID_EXPRESSION) && r.st == st
  {
    hide EvalOperand, Keeps, Follows;
  }

  // ---------------------------------------------------------------- lookups, index and length

  /** A name that is not bound is not found. */
  lemma UnboundName(name: string, scope: Scope, st: State)
    requires name !in scope
    ensures var r := EvalLookupScope(Var(name), scope, st); r.step.Done? && Fails(r.step.v, NOT_FOUND) && r.st == st
  {
    assert GetOr(Var(name).data, "name", Str("")) == Str(name);
  }

  /** Only an array is indexed, before its index is looked at, and only by an integer. */
  lemma IndexFails(xs: Entity, at: Entity, scope: Scope, env: Env, st: State, a: Value, st1: State)
    requires EvalOperand(Hash(xs), INVALID_EXPRESSION, false, scope, env, st) == OperandReply(Got(a), st1)
    ensures var r := EvalIndex(IndexOf(xs, at), scope, env, st);
            && (!a.Arr? ==> r.step.Done? && Fails(r.step.v, TYPE_MISMATCH) && r.st == st1)
            && var i := EvalOperand(Hash(at), INVALID_EXPRESSION, false, scope, env, st1);
               a.Arr? && i.out.Got? && !i.out.v.Int? ==>
                 r.step.Done? && Fails(r.step.v, TYPE_MISMATCH) && r.st == i.st
  {
    hide EvalOperand, Keeps, Follows;
    var e := IndexOf(xs, at);
    assert Get(e.data, "array") == Hash(xs) && Get(e.data, "index") == Hash(at);
  }

  /** Only an array has a length. */
  lemma LengthFails(x: Entity, v: Value)
    requires !v.Arr?
    ensures var r := Combine(LengthOf(x), map["array" := v]); r.Done? && Fails(r.v, TYPE_MISMATCH)
  {
  }

  // ---------------------------------------------------------------- operators and branches

  /** An operand makes an operation unsigned if and only if its expression is a cast to uint. */
  lemma UnsignedIffCast(toType: string, x: Entity, v: Value, name: string)
    ensures IsUintCast(Hash(CastOf(toType, x))) <==> toType == "primitive/uint"
    ensures !IsUintCast(Hash(Lit(v))) && !IsUintCast(Hash(Var(name)))
  {
    var e := CastOf(toType, x);
    assert Get(e.data, "to_type") == Str(toType);
  }

  lemma UnsignedOnlyCast(e: Entity)
    requires !e.typ.NumericCast?
    ensures !IsUintCast(Hash(e))
  {
  }

  /** An if without an else gives null when its condition is false. */
  lemma IfWithoutElse(c: Ctx, scope: Scope, cond: Arg, yes: Entity)
    requires ArgGives(c, scope, cond) && !Truthy(cond.value)
    ensures var e := Entity(If, Rec(map["condition" := Hash(cond.expr), "then" := Hash(yes)]));
            Gives(c, e, scope, Null, 1 + cond.cost, 1 + cond.need, cond.puts)
  {
    hide Inner, ArgGives, Ready, EndsIn, Truthy, Gives;
    var e := Entity(If, Rec(map["condition" := Hash(cond.expr), "then" := Hash(yes)]));
    forall st | Ready(c, st, cond.cost, cond.need)
      ensures EndsIn(st, Inner(e, scope, c.env, st), Null, cond.cost, cond.puts)
    {
      NoElseInner(c, scope, cond, e, st);
    }
    ValueForm(c, e, scope, Null, cond.cost, cond.need, cond.puts);
  }

  lemma NoElseInner(c: Ctx, scope: Scope, cond: Arg, e: Entity, st: State)
    requires ArgGives(c, scope, cond) && !Truthy(cond.value) && Ready(c, st, cond.cost, cond.need)
    requires e.typ.If? && e.data.Rec? && Get(e.data, "condition") == Hash(cond.expr) && Get(e.data, "else").Null?
    ensures EndsIn(st, Inner(e, scope, c.env, st), Null, cond.cost, cond.puts)
  {
    hide Evaluate, EvalOperand, Truthy, Resolvable, Error, TailTo, ArgGives, Gives, Keeps, Follows;
    GivesIsOk(c, scope, cond, false);
    OperandRule(c, INVALID_EXPRESSION, false, scope, st, cond);
    assert Inner(e, scope, c.env, st) == EvalIf(e, scope, c.env, st);
  }

  /** An apply with a path is a handler call, whatever else it carries; with neither path nor function it is
      malformed. */
  lemma PathBeforeFunction(e: Entity, scope: Scope, env: Env, st: State)
    ensures !Get(e.data, "path").Null? ==> EvalApply(e, scope, env, st) == EvalApplyHandler(e, scope, env, st)
    ensures Get(e.data, "path").Null? && Get(e.data, "fn").Null? ==>
              var r := EvalApply(e, scope, env, st);
              r.step.Done? && Fails(r.step.v, INVALID_EXPRESSION) && r.st == st
  {
    hide EvalApplyHandler, EvalApplyClosure, Keeps, Follows;
  }

  /** A builtin carries neither a capability nor a resource, and every handler call names its operation. */
  lemma MalformedHandlerCalls(e: Entity, path: string, scope: Scope, env: Env, st: State)
    requires Get(e.data, "path") == Str(path)
    requires Get(e.data, "operation").Null? ||
             (HasBuiltinPrefix(path) && !(Get(e.data, "capability").Null? && Get(e.data, "resource").Null?))
    ensures var r := EvalApplyHandler(e, scope, env, st);
            r.step.Done? && Fails(r.step.v, INVALID_EXPRESSION) && r.st == st
  {
    hide EvalCall, EvalAlias, Keeps, Follows;
  }

  /** `store` and every path that names no builtin leave the evaluator, with their arguments evaluated. */
  lemma LeavesTheEvaluator(path: string, args: Scope, env: Env, st: State)
    requires path == "system/compute/builtins/store" || !HasBuiltinPrefix(path)
    ensures EvalBuiltin(BuiltinNamed(path), args, env, st) == Reply(Abort(Dispatched), st)
  {
    hide Collect, Keeps, Follows;
    assert path == "system/compute/builtins/store" ==>
      HasBuiltinPrefix(path) && path[|BUILTIN_PREFIX|..] == "store";
  }

  /** The arguments of an apply are a record; what is false stands for none. */
  lemma ArgumentsOf(e: Entity)
    ensures Get(e.data, "args").Rec? ==> ArgsOf(e) == Some(Get(e.data, "args").fields)
    ensures Get(e.data, "args") in {Null, Bool(false), Int(0), Str(""), Arr([])} ==> ArgsOf(e) == Some(map[])
    ensures Get(e.data, "args").Hash? || Get(e.data, "args") == Bool(true) ==> ArgsOf(e) == None
  {
  }

  /** A group-by key that is not an error is materialized before it is compared: what it holds is stored. */
  lemma KeysAreStored(fn: Value, els: seq<Value>, gs: seq<Group>, env: Env, key: Value, st: State)
    requires els != [] && !IsError(key) && !Raises(key)
    ensures Puts(key) <= CollectRest(GroupBy, fn, els, Groups(gs), env, Reply(Done(key), st)).st.store
  {
    hide Collect, IsError, KeyId, Puts, Raises, AddToGroup;
    var stored := st.(store := st.store + Puts(key));
    match Absorb(GroupBy, Groups(gs), els[0], key)
    case Halt(_) =>
    case More(acc) => assert Follows(stored, Collect(GroupBy, fn, els[1..], acc, env, stored).st);
  }

  /** A key can be compared if and only if it is no entity, raises nothing and its bare form can be encoded. */
  lemma KeysCompared(key: Value)
    requires InFlight(key)
    ensures KeyId(key) == if Raises(key) || key.Ent? then None else Some(Bare(key))
  {
    BareIsEncodable(key);
  }
}
