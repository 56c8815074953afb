/**
 Materialization stores what it refers to, and nothing else: the bare form of a value and everything
 stored with it refer only to what the value held already or to what is stored with them.
 */
module StoredReferences {
  import opened Values
  import opened Materialize
  import opened Evaluator

  /** Every reference a value holds, those inside its live entities included. */
  function Held(v: Value): set<Entity> {
    match v
    case Hash(e) => {e}
    case Arr(es) => set i, x | 0 <= i < |es| && x in Held(es[i]) :: x
    case Rec(m) => set k, x | k in m && x in Held(m[k]) :: x
    case Ent(e) => Held(e.data)
    case _ => {}
  }

  lemma {:induction false} RefsAreHeld(v: Value)
    ensures Refs(v) <= Held(v)
  {
    match v
    case Arr(es) => forall i | 0 <= i < |es| ensures Refs(es[i]) <= Held(es[i]) { RefsAreHeld(es[i]); }
    case Rec(m) => forall k | k in m ensures Refs(m[k]) <= Held(m[k]) { RefsAreHeld(m[k]); }
    case _ =>
  }

  /** The references `refs` lead to something held before or stored now, and so do those of what is stored now. */
  predicate Complete(held: set<Entity>, refs: set<Entity>, puts: set<Entity>) {
    refs <= held + puts && forall x | x in puts :: Refs(x.data) <= held + puts
  }

  lemma RefsOfOne(k: string, v: Value)
    ensures Refs(Rec(map[k := v])) == Refs(v)
  {
    var m := map[k := v];
    assert k in m && m[k] == v && forall x | x in m :: x == k;
  }

  lemma CodeIsHeld(v: Value)
    requires IsError(v)
    ensures Refs(CodeOnly(v).data) <= Held(v)
  {
    var code := GetOr(ErrorData(v), "code", Str(""));
    RefsOfOne("code", code);
    RefsAreHeld(code);
    if v.Rec? { assert Held(GetOr(v, "data", v)) <= Held(v); }
  }

  /** In a field and in an array position. */
  lemma {:induction false} FieldComplete(v: Value)
    ensures Complete(Held(v), Refs(BareField(v)), FieldPuts(v))
    ensures Complete(Held(v), Refs(BareElement(v)), ElementPuts(v))
    decreases v, 1
  {
    if IsError(v) { CodeIsHeld(v); }
    match v
    case Arr(es) => ElementsComplete(es);
    case Ent(e) => EntityComplete(e);
    case _ => RefsAreHeld(v);
  }

  lemma {:induction false} ElementsComplete(es: seq<Value>)
    ensures Complete(Held(Arr(es)), Refs(Arr(BareElements(es))), ElementsPuts(es))
    decreases es, 0
  {
    hide BareElement, ElementPuts;
    forall i | 0 <= i < |es|
      ensures Complete(Held(es[i]), Refs(BareElement(es[i])), ElementPuts(es[i]))
      ensures Held(es[i]) <= Held(Arr(es)) && ElementPuts(es[i]) <= ElementsPuts(es)
    {
      FieldComplete(es[i]);
    }
  }

  lemma {:induction false} EntityComplete(e: Entity)
    ensures Complete(Held(Ent(e)), Refs(BareEntity(e).data), EntityPuts(e))
    decreases e, 0
  {
    hide BareField, FieldPuts, BareElements, ElementsPuts;
    match e.data
    case Arr(es) => ElementsComplete(es);
    case Rec(m) =>
      forall k | k in m
        ensures Complete(Held(m[k]), Refs(BareField(m[k])), FieldPuts(m[k]))
        ensures Held(m[k]) <= Held(e.data) && FieldPuts(m[k]) <= EntityPuts(e)
      {
        FieldComplete(m[k]);
      }
    case _ => RefsAreHeld(e.data);
  }

  /** What the top level of a bare form refers to: an entity there is the value itself, not a reference. */
  function TopRefs(v: Value): set<Entity> {
    if v.Ent? then Refs(v.entity.data) else Refs(v)
  }

  /** Materialization is complete: everything the bare form refers to is stored, or was referred to before. */
  lemma BareIsComplete(v: Value)
    ensures Complete(Held(v), TopRefs(Bare(v)), Puts(v))
  {
    match v
    case Arr(es) => ElementsComplete(es);
    case Ent(e) => EntityComplete(e);
    case _ => RefsAreHeld(v);
  }

  // ---------------------------------------------------------------- nothing else is stored

  /** Something in `refs` or among the stored entities refers to `x`. */
  ghost predicate Wanted(refs: set<Entity>, puts: set<Entity>, x: Entity) {
    x in refs || exists y :: y in puts && x in Refs(y.data)
  }

  lemma {:induction false} FieldWanted(v: Value)
    ensures forall x | x in FieldPuts(v) :: Wanted(Refs(BareField(v)), FieldPuts(v), x)
    ensures forall x | x in ElementPuts(v) :: Wanted(Refs(BareElement(v)), ElementPuts(v), x)
    decreases v, 1
  {
    match v
    case Arr(es) => ElementsWanted(es);
    case Ent(e) =>
      EntityWanted(e);
      forall x | x in FieldPuts(v) ensures Wanted(Refs(BareField(v)), FieldPuts(v), x) {
        if x != BareEntity(e) && x in Refs(BareEntity(e).data) { assert BareEntity(e) in FieldPuts(v); }
      }
    case _ =>
  }

  lemma {:induction false} ElementsWanted(es: seq<Value>)
    ensures forall x | x in ElementsPuts(es) :: Wanted(Refs(Arr(BareElements(es))), ElementsPuts(es), x)
    decreases es, 0
  {
    hide BareElement, ElementPuts;
    forall x | x in ElementsPuts(es) ensures Wanted(Refs(Arr(BareElements(es))), ElementsPuts(es), x) {
      var i :| 0 <= i < |es| && x in ElementPuts(es[i]);
      FieldWanted(es[i]);
      assert BareElements(es)[i] == BareElement(es[i]);
      if x !in Refs(BareElement(es[i])) {
        var y :| y in ElementPuts(es[i]) && x in Refs(y.data);
        assert y in ElementsPuts(es);
      }
    }
  }

  lemma {:induction false} EntityWanted(e: Entity)
    ensures forall x | x in EntityPuts(e) :: Wanted(Refs(BareEntity(e).data), EntityPuts(e), x)
    decreases e, 0
  {
    hide BareField, FieldPuts, BareElements, ElementsPuts;
    match e.data
    case Arr(es) => ElementsWanted(es);
    case Rec(m) =>
      forall x | x in EntityPuts(e) ensures Wanted(Refs(BareEntity(e).data), EntityPuts(e), x) {
        var k :| k in m && x in FieldPuts(m[k]);
        FieldWanted(m[k]);
        assert BareEntity(e).data.fields[k] == BareField(m[k]);
        if x !in Refs(BareField(m[k])) {
          var y :| y in FieldPuts(m[k]) && x in Refs(y.data);
          assert y in EntityPuts(e);
        }
      }
    case _ =>
  }

  /** Materialization stores nothing that neither the bare form nor another stored entity refers to. */
  lemma BareStoresNoMore(v: Value)
    ensures forall x | x in Puts(v) :: Wanted(TopRefs(Bare(v)), Puts(v), x)
  {
    match v
    case Arr(es) => ElementsWanted(es);
    case Ent(e) => EntityWanted(e);
    case _ =>
  }

  // ---------------------------------------------------------------- errors

  /** An error as it may be stored: nothing but its code. */
  predicate OnlyCode(x: Entity) {
    x.typ.ErrorValue? ==> x.data.Rec? && x.data.fields.Keys == {"code"}
  }

  lemma {:induction false} FieldErrors(v: Value)
    ensures !Raises(v) ==> forall x | x in FieldPuts(v) :: OnlyCode(x)
    ensures IsError(v) || !Raises(v) ==> forall x | x in ElementPuts(v) :: OnlyCode(x)
    decreases v, 1
  {
    hide OnlyCode;
    if IsError(v) { CodeOnlyIsOnlyCode(v); }
    match v
    case Arr(es) => if !Raises(v) { ElementsErrors(es); }
    case Ent(e) =>
      if !Raises(v) {
        EntityErrors(e);
        NoErrorStaysNone(e);
      }
    case _ =>
  }

  lemma NoErrorStaysNone(e: Entity)
    requires !e.typ.ErrorValue?
    ensures OnlyCode(BareEntity(e))
  {
  }

  lemma CodeOnlyIsOnlyCode(v: Value)
    ensures OnlyCode(CodeOnly(v))
  {
  }

  lemma {:induction false} ElementsErrors(es: seq<Value>)
    requires !ElementsRaise(es)
    ensures forall x | x in ElementsPuts(es) :: OnlyCode(x)
    decreases es, 0
  {
    hide OnlyCode, ElementPuts, IsError;
    forall i | 0 <= i < |es| ensures forall x | x in ElementPuts(es[i]) :: OnlyCode(x) { FieldErrors(es[i]); }
  }

  lemma {:induction false} EntityErrors(e: Entity)
    requires !EntityRaises(e)
    ensures forall x | x in EntityPuts(e) :: OnlyCode(x)
    decreases e, 0
  {
    hide OnlyCode, FieldPuts;
    match e.data
    case Arr(es) => ElementsErrors(es);
    case Rec(m) => forall k | k in m ensures forall x | x in FieldPuts(m[k]) :: OnlyCode(x) { FieldErrors(m[k]); }
    case _ =>
  }

  /** An error in an array position is referred to by its code, in either of its representations. */
  lemma ContainedErrorKeepsItsCode(v: Value)
    requires IsError(v)
    ensures var r := BareElement(v);
            && r.Hash? && r.target.typ.ErrorValue? && r.target in ElementPuts(v)
            && (ErrorData(v).Rec? && "code" in ErrorData(v).fields ==>
                  Get(r.target.data, "code") == Get(ErrorData(v), "code"))
  {
  }

  /** What does not raise stores errors as their code alone: no diagnostic gets into a stored entity's hash. */
  lemma StoredErrorsAreCodes(v: Value)
    requires !Raises(v)
    ensures forall x | x in Puts(v) :: OnlyCode(x)
    ensures v.Ent? ==> !v.entity.typ.ErrorValue?
  {
    hide OnlyCode;
    match v
    case Arr(es) => ElementsErrors(es);
    case Ent(e) => EntityErrors(e);
    case _ =>
  }

  /** Errors in array positions do not raise; anywhere else an error entity does. */
  lemma WhereErrorsRaise(e: Entity, es: seq<Value>, k: string, m: map<string, Value>, t: Type)
    requires e.typ.ErrorValue? && k in m && m[k] == Ent(e)
    ensures Raises(Ent(e)) && Raises(Ent(Entity(t, Rec(m))))
    ensures (forall i | 0 <= i < |es| :: IsError(es[i]) || !Raises(es[i])) <==> !Raises(Arr(es))
  {
    assert Raises(m[k]);
  }

  // ---------------------------------------------------------------- captured scopes

  function ScopeHeld(s: Scope): set<Entity> {
    set x, e | x in s && e in Held(s[x]) :: e
  }

  lemma BindingRefs(v: Value)
    ensures Refs(CaptureBinding(v)) == if v.Ent? then {BareEntity(v.entity)} else Refs(Bare(v))
  {
    var b := CaptureBinding(v);
    var name := if v.Ent? then "entity_hash" else "value";
    var inner := if v.Ent? then Hash(BareEntity(v.entity)) else Bare(v);
    assert b.fields["kind"].Str? && b.fields[name] == inner;
    assert forall k | k in b.fields :: k == "kind" || k == name;
    assert Refs(b) == Refs(inner);
  }

  function BindingRefsOf(v: Value): set<Entity> {
    Refs(CaptureBinding(v))
  }

  lemma ScopeEntityRefs(s: Scope)
    ensures Refs(ScopeEntity(s).data) == set x, e | x in s && e in BindingRefsOf(s[x]) :: e
  {
    hide CaptureBinding;
    var bs := CapturedBindings(s);
    RefsOfOne("bindings", Rec(bs));
    assert ScopeEntity(s).data == Rec(map["bindings" := Rec(bs)]);
    forall x | x in s ensures Refs(bs[x]) == BindingRefsOf(s[x]) {}
    assert Refs(Rec(bs)) == set x, e | x in s && e in BindingRefsOf(s[x]) :: e;
  }

  /** What one binding brings into a capture. */
  function BindingPuts(v: Value): set<Entity> {
    Puts(v) + if v.Ent? then {BareEntity(v.entity)} else {}
  }

  lemma BindingComplete(v: Value)
    ensures Complete(Held(v), BindingRefsOf(v), BindingPuts(v))
  {
    BindingRefs(v);
    BareIsComplete(v);
  }

  lemma BindingWanted(v: Value)
    ensures forall x | x in BindingPuts(v) :: Wanted(BindingRefsOf(v), BindingPuts(v), x)
  {
    hide CaptureBinding, Puts;
    BindingRefs(v);
    BareStoresNoMore(v);
    if v.Ent? { assert BareEntity(v.entity) in BindingPuts(v); }
  }

  lemma CapturePutsAre(s: Scope)
    requires s != map[]
    ensures CapturePuts(s) == {ScopeEntity(s)} + set x, p | x in s && p in BindingPuts(s[x]) :: p
  {
    hide Puts, BareEntity, ScopeEntity;
    forall p ensures p in CapturePuts(s) <==> p == ScopeEntity(s) || exists x :: x in s && p in BindingPuts(s[x]) {
      if x :| x in s && p in BindingPuts(s[x]) { }
    }
  }

  /**
   A capture leaves nothing dangling: every reference of the stored scope, and of everything stored with
   it, was in a binding already or is stored.
   */
  lemma CaptureIsComplete(s: Scope)
    requires s != map[]
    ensures ScopeEntity(s) in CapturePuts(s)
    ensures Complete(ScopeHeld(s), Refs(ScopeEntity(s).data), CapturePuts(s))
  {
    hide BindingRefsOf, BindingPuts, CapturePuts, ScopeEntity;
    CapturePutsAre(s);
    ScopeEntityRefs(s);
    forall x | x in s
      ensures Complete(Held(s[x]), BindingRefsOf(s[x]), BindingPuts(s[x]))
      ensures Held(s[x]) <= ScopeHeld(s) && BindingPuts(s[x]) <= CapturePuts(s)
    {
      BindingComplete(s[x]);
    }
  }

  /** And it stores nothing that the stored scope does not lead to. */
  lemma CaptureStoresNoMore(s: Scope, x: Entity)
    requires s != map[] && x in CapturePuts(s)
    ensures x == ScopeEntity(s) || Wanted(Refs(ScopeEntity(s).data), CapturePuts(s), x)
  {
    hide BindingRefsOf, BindingPuts, CapturePuts, ScopeEntity;
    CapturePutsAre(s);
    ScopeEntityRefs(s);
    if x != ScopeEntity(s) {
      var k :| k in s && x in BindingPuts(s[k]);
      BindingWanted(s[k]);
      if x in BindingRefsOf(s[k]) {
        assert x in Refs(ScopeEntity(s).data);
      } else {
        var y :| y in BindingPuts(s[k]) && x in Refs(y.data);
        assert y in CapturePuts(s);
      }
    }
  }

  /** A lambda whose scope holds nothing dangling makes a closure, and a store, that hold nothing dangling. */
  lemma LambdaIsComplete(e: Entity, scope: Scope, st: State)
    requires !CaptureRaises(scope) && ScopeHeld(scope) <= st.store
    ensures var r := EvalLambda(e, scope, st);
            && r.step.Done? && r.step.v.Ent?
            && Refs(r.step.v.entity.data) <= Refs(e.data) + r.st.store
            && forall x | x in r.st.store - st.store :: Refs(x.data) <= r.st.store
  {
    hide CaptureRaises, CapturePuts, CaptureMarks, ScopeEntity;
    if scope != map[] { CaptureIsComplete(scope); }
    ClosureRefs(e, scope);
    assert scope == map[] ==> CapturePuts(scope) == {} by { EmptyCapture(); }
  }

  lemma EmptyCapture()
    ensures CapturePuts(map[]) == {}
  {
  }

  lemma ClosureRefs(e: Entity, scope: Scope)
    ensures Refs(MakeClosure(e, scope).data) <= Refs(e.data) + Refs(CaptureHash(scope))
  {
    hide CaptureHash;
    var params, body := GetOr(e.data, "params", Arr([])), Get(e.data, "body");
    assert Refs(params) <= Refs(e.data) && Refs(body) <= Refs(e.data);
    var m := map["params" := params, "body" := body, "env" := CaptureHash(scope)];
    forall k | k in m ensures Refs(m[k]) <= Refs(e.data) + Refs(CaptureHash(scope)) {}
  }
}
