/**
 Materialization of in-flight values to their bare wire form, and scope capture and
 loading.  Storing an entity is adding it to the content store; the hash that comes
 back is a reference to the stored entity.
 */
module Materialize {
  import opened Values

  // ---------------------------------------------------------------- the bare form

  function Bare(v: Value): Value {
    match v
    case Arr(es) => Arr(BareElements(es))
    case Ent(e) => Ent(BareEntity(e))
    case _ => v
  }

  function BareElements(es: seq<Value>): (r: seq<Value>)
    ensures |r| == |es|
    ensures forall i | 0 <= i < |es| :: r[i] == BareElement(es[i])
  {
    if es == [] then [] else [BareElement(es[0])] + BareElements(es[1..])
  }

  /** An array element: a contained error becomes a reference to its code-only form. */
  function BareElement(v: Value): Value
    decreases v, 1
  {
    if IsError(v) then Hash(CodeOnly(v)) else BareField(v)
  }

  function BareEntity(e: Entity): Entity {
    match e.data
    case Arr(es) => Entity(e.typ, Arr(BareElements(es)))
    case Rec(m) => Entity(e.typ, Rec(map k | k in m :: BareField(m[k])))
    case _ => e
  }

  function BareField(v: Value): Value
    decreases v, 0
  {
    match v
    case Ent(e) => Hash(BareEntity(e))
    case Arr(es) => Arr(BareElements(es))
    case _ => v
  }

  /** An error entity met outside an array element raises. */
  predicate Raises(v: Value) {
    match v
    case Arr(es) => ElementsRaise(es)
    case Ent(e) => EntityRaises(e)
    case _ => false
  }

  predicate ElementsRaise(es: seq<Value>) {
    exists i | 0 <= i < |es| :: !IsError(es[i]) && Raises(es[i])
  }

  predicate EntityRaises(e: Entity) {
    e.typ.ErrorValue? ||
    match e.data
    case Arr(es) => ElementsRaise(es)
    case Rec(m) => exists k | k in m :: Raises(m[k])
    case _ => false
  }

  /** The entities materialization stores on the way. */
  function Puts(v: Value): set<Entity> {
    match v
    case Arr(es) => ElementsPuts(es)
    case Ent(e) => EntityPuts(e)
    case _ => {}
  }

  function ElementsPuts(es: seq<Value>): set<Entity> {
    set i, x | 0 <= i < |es| && x in ElementPuts(es[i]) :: x
  }

  function ElementPuts(v: Value): set<Entity>
    decreases v, 1
  {
    if IsError(v) then {CodeOnly(v)} else FieldPuts(v)
  }

  function EntityPuts(e: Entity): set<Entity> {
    match e.data
    case Arr(es) => ElementsPuts(es)
    case Rec(m) => set k, x | k in m && x in FieldPuts(m[k]) :: x
    case _ => {}
  }

  function FieldPuts(v: Value): set<Entity>
    decreases v, 0
  {
    match v
    case Ent(e) => EntityPuts(e) + {BareEntity(e)}
    case Arr(es) => ElementsPuts(es)
    case _ => {}
  }

  // ---------------------------------------------------------------- scope capture and loading

  predicate CaptureRaises(scope: Scope) {
    exists x | x in scope :: Raises(scope[x])
  }

  /** The kind-tagged form of one binding. */
  function CaptureBinding(v: Value): Value {
    if v.Ent? then Rec(map["kind" := Str("entity"), "entity_hash" := Hash(BareEntity(v.entity))])
    else if v.Arr? then Rec(map["kind" := Str("value"), "value" := Bare(v)])
    else Rec(map["kind" := Str("value"), "value" := v])
  }

  function CapturedBindings(s: Scope): map<string, Value> {
    map x | x in s :: CaptureBinding(s[x])
  }

  function ScopeEntity(scope: Scope): Entity {
    Entity(ScopeValue, Rec(map["bindings" := Rec(CapturedBindings(scope))]))
  }

  /** The hash a captured scope is stored under; an empty scope is not stored. */
  function CaptureHash(scope: Scope): Value {
    if scope == map[] then Null else Hash(ScopeEntity(scope))
  }

  function CaptureMarks(scope: Scope): set<Entity> {
    if scope == map[] then {}
    else (set x | x in scope && scope[x].Ent? :: BareEntity(scope[x].entity)) + {ScopeEntity(scope)}
  }

  function CapturePuts(scope: Scope): set<Entity> {
    CaptureMarks(scope) + (set x, p | x in scope && p in Puts(scope[x]) :: p)
  }

  datatype LoadResult =
    | Loaded(scope: Scope, marks: set<Entity>)
    | LoadError(error: Value, marks: set<Entity>)
    | LoadRaises

  datatype Binding = Bound(value: Value, mark: set<Entity>) | Unbound(error: Value)

  /** Reads one stored binding back; entity bindings come from the store or the envelope. */
  function LoadBinding(b: Value, available: set<Entity>): Binding {
    if b.Rec? && "kind" in b.fields then
      var kind := b.fields["kind"];
      if kind == Str("value") then Bound(Get(b, "value"), {})
      else if kind == Str("entity") then
        var h := Get(b, "entity_hash");
        if h.Hash? && h.target in available then Bound(Ent(h.target), {h.target})
        else Unbound(Error(SCOPE_UNREACHABLE, "binding references an unresolvable entity"))
      else Unbound(Error(INVALID_EXPRESSION, "binding has unknown kind"))
    else Bound(b, {})
  }

  function LoadBindings(keys: seq<string>, bindings: map<string, Value>, available: set<Entity>,
                        scope: Scope, marks: set<Entity>): LoadResult
    requires forall k | k in keys :: k in bindings
  {
    if keys == [] then Loaded(scope, marks)
    else match LoadBinding(bindings[keys[0]], available)
      case Unbound(error) => LoadError(error, marks)
      case Bound(v, mark) =>
        LoadBindings(keys[1..], bindings, available, scope[keys[0] := v], marks + mark)
  }

  function LoadScope(env: Value, store: set<Entity>, included: set<Entity>): LoadResult {
    if env.Null? then Loaded(map[], {})
    else if Unhashable(env) then LoadRaises
    else if !(env.Hash? && env.target in store) then LoadError(Error(NOT_FOUND, "closure scope entity not found"), {})
    else
      var data := env.target.data;
      if data.Null? then Loaded(map[], {env.target})
      else if !data.Rec? then LoadRaises
      else
        var bindings := Get(data, "bindings");
        if bindings.Rec? then
          LoadBindings(CanonicalKeys(bindings.fields.Keys), bindings.fields, store + included, map[], {env.target})
        else if Truthy(bindings) then LoadRaises
        else Loaded(map[], {env.target})
  }

  // ---------------------------------------------------------------- laws of materialization

  /** Live entities sit in entity, field and array positions, never inside a record or an error. */
  predicate InFlight(v: Value) {
    match v
    case Arr(es) => forall i | 0 <= i < |es| :: InFlight(es[i])
    case Ent(e) => InFlightEntity(e)
    case _ => NoLive(v)
  }

  predicate InFlightEntity(e: Entity) {
    if e.typ.ErrorValue? then NoLive(e.data) else
    match e.data
    case Rec(m) => forall k | k in m :: InFlight(m[k])
    case Ent(_) => false
    case _ => InFlight(e.data)
  }

  lemma ErrorCodeIsEncodable(v: Value)
    requires InFlight(v) && IsError(v)
    ensures NoLive(CodeOnly(v).data)
  {
    if v.Rec? {
      assert NoLive(GetOr(v, "data", v));
    }
  }

  lemma {:induction false} BareFieldIsEncodable(v: Value)
    requires InFlight(v)
    ensures NoLive(BareField(v)) && NoLive(BareElement(v))
    ensures forall x | x in FieldPuts(v) + ElementPuts(v) :: NoLive(x.data)
  {
    if IsError(v) { ErrorCodeIsEncodable(v); }
    match v
    case Arr(es) => BareElementsAreEncodable(es);
    case Ent(e) => BareEntityIsEncodable(e);
    case _ =>
  }

  lemma {:induction false} BareElementsAreEncodable(es: seq<Value>)
    requires forall i | 0 <= i < |es| :: InFlight(es[i])
    ensures NoLive(Arr(BareElements(es)))
    ensures forall x | x in ElementsPuts(es) :: NoLive(x.data)
  {
    forall i | 0 <= i < |es|
      ensures NoLive(BareElement(es[i])) && forall x | x in ElementPuts(es[i]) :: NoLive(x.data)
    {
      BareFieldIsEncodable(es[i]);
    }
  }

  lemma {:induction false} BareEntityIsEncodable(e: Entity)
    requires InFlightEntity(e)
    ensures NoLive(BareEntity(e).data)
    ensures forall x | x in EntityPuts(e) :: NoLive(x.data)
  {
    match e.data
    case Arr(es) =>
      forall i | 0 <= i < |es| ensures InFlight(es[i]) { if e.typ.ErrorValue? { NoLiveIsInFlight(es[i]); } }
      BareElementsAreEncodable(es);
    case Rec(m) =>
      forall k | k in m
        ensures NoLive(BareField(m[k])) && forall x | x in FieldPuts(m[k]) :: NoLive(x.data)
      {
        if e.typ.ErrorValue? { NoLiveIsInFlight(m[k]); }
        BareFieldIsEncodable(m[k]);
      }
    case _ =>
  }

  lemma {:induction false} NoLiveIsInFlight(v: Value)
    requires NoLive(v)
    ensures InFlight(v)
  {
    if v.Arr? { forall i | 0 <= i < |v.elems| ensures InFlight(v.elems[i]) { NoLiveIsInFlight(v.elems[i]); } }
  }

  /**
   The bare form holds no in-flight entity below its top, and neither does anything
   materialization stores: both can be encoded and hashed.
   */
  lemma BareIsEncodable(v: Value)
    requires InFlight(v)
    ensures if v.Ent? then NoLive(Bare(v).entity.data) else NoLive(Bare(v))
    ensures forall x | x in Puts(v) :: NoLive(x.data)
  {
    BareFieldIsEncodable(v);
    if v.Ent? { BareEntityIsEncodable(v.entity); }
  }

  lemma {:induction false} BareFieldIdempotent(v: Value)
    ensures BareField(BareField(v)) == BareField(v)
    ensures BareElement(BareElement(v)) == BareElement(v)
  {
    if v.Arr? { BareElementsIdempotent(v.elems); }
  }

  lemma {:induction false} BareElementsIdempotent(es: seq<Value>)
    ensures BareElements(BareElements(es)) == BareElements(es)
  {
    var once := BareElements(es);
    forall i | 0 <= i < |es| ensures BareElement(once[i]) == once[i] { BareFieldIdempotent(es[i]); }
  }

  /** Materializing twice is materializing once. */
  lemma BareIsIdempotent(v: Value)
    ensures Bare(Bare(v)) == Bare(v)
  {
    BareFieldIdempotent(v);
    if v.Ent? {
      match v.entity.data
      case Arr(es) => BareElementsIdempotent(es);
      case Rec(m) =>
        var once := BareEntity(v.entity).data.fields;
        forall k | k in m ensures BareField(once[k]) == once[k] { BareFieldIdempotent(m[k]); }
        assert (map k | k in once :: BareField(once[k])) == once;
      case _ =>
    }
  }

  /** Equal except for the diagnostics (message and the like) of errors in array positions. */
  predicate SameButDiagnostics(v: Value, w: Value)
    decreases v
  {
    match v
    case Arr(es) => w.Arr? && SameElements(es, w.elems)
    case Ent(e) =>
      w.Ent? && e.typ == w.entity.typ &&
      (match e.data
       case Arr(es) => w.entity.data.Arr? && SameElements(es, w.entity.data.elems)
       case Rec(m) =>
         && w.entity.data.Rec? && m.Keys == w.entity.data.fields.Keys
         && forall k | k in m :: SameButDiagnostics(m[k], w.entity.data.fields[k])
       case _ => e.data == w.entity.data)
    case _ => v == w
  }

  predicate SameElements(es: seq<Value>, fs: seq<Value>)
    decreases es
  {
    |es| == |fs| &&
    forall i | 0 <= i < |es| ::
      || (IsError(es[i]) && IsError(fs[i]) && CodeOnly(es[i]) == CodeOnly(fs[i]))
      || (!IsError(es[i]) && !IsError(fs[i]) && SameButDiagnostics(es[i], fs[i]))
  }

  lemma {:induction false} SameMaterializes(v: Value, w: Value)
    requires SameButDiagnostics(v, w)
    ensures Bare(v) == Bare(w) && Puts(v) == Puts(w) && Raises(v) == Raises(w)
    decreases v
  {
    match v
    case Arr(es) => SameElementsMaterialize(es, w.elems);
    case Ent(e) =>
      match e.data {
        case Arr(es) => SameElementsMaterialize(es, w.entity.data.elems);
        case Rec(m) =>
          var n := w.entity.data.fields;
          forall k | k in m
            ensures BareField(m[k]) == BareField(n[k]) && FieldPuts(m[k]) == FieldPuts(n[k])
            ensures Raises(m[k]) == Raises(n[k])
          {
            SameMaterializes(m[k], n[k]);
          }
          SameFieldsMaterialize(e, w.entity);
        case _ =>
      }
    case _ =>
  }

  lemma SameFieldsMaterialize(e: Entity, f: Entity)
    requires e.typ == f.typ && e.data.Rec? && f.data.Rec? && e.data.fields.Keys == f.data.fields.Keys
    requires forall k | k in e.data.fields ::
      && BareField(e.data.fields[k]) == BareField(f.data.fields[k])
      && FieldPuts(e.data.fields[k]) == FieldPuts(f.data.fields[k])
      && Raises(e.data.fields[k]) == Raises(f.data.fields[k])
    ensures BareEntity(e) == BareEntity(f) && EntityPuts(e) == EntityPuts(f) && EntityRaises(e) == EntityRaises(f)
  {
    var m, n := e.data.fields, f.data.fields;
    assert (map k | k in m :: BareField(m[k])) == (map k | k in n :: BareField(n[k]));
  }

  lemma {:induction false} SameElementsMaterialize(es: seq<Value>, fs: seq<Value>)
    requires SameElements(es, fs)
    ensures BareElements(es) == BareElements(fs) && ElementsPuts(es) == ElementsPuts(fs)
    ensures ElementsRaise(es) == ElementsRaise(fs)
    decreases es
  {
    forall i | 0 <= i < |es|
      ensures BareElement(es[i]) == BareElement(fs[i]) && ElementPuts(es[i]) == ElementPuts(fs[i])
      ensures (!IsError(es[i]) && Raises(es[i])) == (!IsError(fs[i]) && Raises(fs[i]))
    {
      if !IsError(es[i]) { SameMaterializes(es[i], fs[i]); }
    }
  }

  // ---------------------------------------------------------------- capture then load

  lemma {:induction false} LoadAll(keys: seq<string>, bindings: map<string, Value>, available: set<Entity>,
                                   scope: Scope, marks: set<Entity>, want: Scope)
    requires forall k | k in keys :: k in bindings && k in want
    requires forall k | k in keys ::
      LoadBinding(bindings[k], available).Bound? && LoadBinding(bindings[k], available).value == want[k]
    ensures var r := LoadBindings(keys, bindings, available, scope, marks);
            && r.Loaded? && r.scope.Keys == scope.Keys + (set k | k in keys)
            && forall k | k in r.scope :: r.scope[k] == if k in keys then want[k] else scope[k]
  {
    if keys != [] {
      var b := LoadBinding(bindings[keys[0]], available);
      LoadAll(keys[1..], bindings, available, scope[keys[0] := b.value], marks + b.mark, want);
    }
  }

  /** The values a captured scope stands for. */
  function MaterializedScope(s: Scope): Scope {
    map x | x in s :: Bare(s[x])
  }

  lemma EachBindingLoads(s: Scope, available: set<Entity>)
    requires CaptureMarks(s) <= available
    ensures var bs, want := CapturedBindings(s), MaterializedScope(s);
            forall k | k in s :: LoadBinding(bs[k], available).Bound? && LoadBinding(bs[k], available).value == want[k]
  {
    forall k | k in s
      ensures var b := LoadBinding(CapturedBindings(s)[k], available); b.Bound? && b.value == MaterializedScope(s)[k]
    {
      CapturedBindingLoads(s[k], available);
      if s[k].Ent? { assert BareEntity(s[k].entity) in CaptureMarks(s); }
    }
  }

  lemma LoadAllBindings(bs: map<string, Value>, available: set<Entity>, marks: set<Entity>, want: Scope)
    requires bs.Keys == want.Keys
    requires forall k | k in bs ::
      LoadBinding(bs[k], available).Bound? && LoadBinding(bs[k], available).value == want[k]
    ensures var r := LoadBindings(CanonicalKeys(bs.Keys), bs, available, map[], marks);
            r.Loaded? && r.scope == want
  {
    hide LoadBinding, LoadBindings, CanonicalKeys;
    var keys := CanonicalKeys(bs.Keys);
    LoadAll(keys, bs, available, map[], marks, want);
    var r := LoadBindings(keys, bs, available, map[], marks);
    assert forall k :: k in r.scope.Keys <==> k in want.Keys;
  }

  lemma {:induction false} LoadMarks(keys: seq<string>, bs: map<string, Value>, available: set<Entity>,
                                     scope: Scope, marks: set<Entity>)
    requires forall k | k in keys :: k in bs && LoadBinding(bs[k], available).Bound?
    ensures var r := LoadBindings(keys, bs, available, scope, marks);
            r.Loaded? && r.marks == marks + set k, e | k in keys && e in LoadBinding(bs[k], available).mark :: e
  {
    hide LoadBinding;
    if keys != [] {
      var b := LoadBinding(bs[keys[0]], available);
      LoadMarks(keys[1..], bs, available, scope[keys[0] := b.value], marks + b.mark);
      assert forall k :: k in keys <==> k == keys[0] || k in keys[1..];
    }
  }

  function BindingMark(v: Value): set<Entity> {
    if v.Ent? then {BareEntity(v.entity)} else {}
  }

  lemma MarksAre(s: Scope)
    requires s != map[]
    ensures CaptureMarks(s) == {ScopeEntity(s)} + set x, e | x in s && e in BindingMark(s[x]) :: e
  {
    hide BareEntity, ScopeEntity;
    assert forall x | x in s && s[x].Ent? :: BareEntity(s[x].entity) in BindingMark(s[x]);
  }

  lemma MarksOfCapture(s: Scope, available: set<Entity>)
    requires CaptureMarks(s) <= available && s != map[]
    ensures var bs := CapturedBindings(s);
            var r := LoadBindings(CanonicalKeys(bs.Keys), bs, available, map[], {ScopeEntity(s)});
            r.Loaded? && r.marks == CaptureMarks(s)
  {
    hide LoadBinding, LoadBindings, CaptureBinding, BindingMark, ScopeEntity, CaptureMarks;
    MarksAre(s);
    var bs := CapturedBindings(s);
    forall k | k in s
      ensures LoadBinding(bs[k], available).Bound? && LoadBinding(bs[k], available).mark == BindingMark(s[k])
    {
      BindingMarked(s, k, available);
    }
    LoadMarks(CanonicalKeys(bs.Keys), bs, available, map[], {ScopeEntity(s)});
  }

  lemma BindingMarked(s: Scope, k: string, available: set<Entity>)
    requires CaptureMarks(s) <= available && k in s
    ensures var b := LoadBinding(CaptureBinding(s[k]), available); b.Bound? && b.mark == BindingMark(s[k])
  {
    hide LoadBinding, CaptureBinding, BareEntity, ScopeEntity;
    CapturedBindingLoads(s[k], available);
    if s[k].Ent? { assert BareEntity(s[k].entity) in CaptureMarks(s); }
  }

  /**
   Loading a captured scope gives back the pointwise materialized scope: capture is not the
   identity, it is materialization.  What is loaded is marked as met: the scope and its entities.
   */
  lemma LoadOfCapture(s: Scope, store: set<Entity>, included: set<Entity>)
    requires CaptureMarks(s) <= store + included && (s != map[] ==> ScopeEntity(s) in store)
    ensures var r := LoadScope(CaptureHash(s), store, included);
            r.Loaded? && r.scope == MaterializedScope(s) && r.marks == CaptureMarks(s)
  {
    if s == map[] {
      assert MaterializedScope(s) == map[];
    } else {
      MarksOfCapture(s, store + included);
      EachBindingLoads(s, store + included);
      LoadAllBindings(CapturedBindings(s), store + included, {ScopeEntity(s)}, MaterializedScope(s));
      LoadOfStored(ScopeEntity(s), CapturedBindings(s), store, included);
    }
  }

  lemma LoadOfStored(e: Entity, bs: map<string, Value>, store: set<Entity>, included: set<Entity>)
    requires e in store && e.data.Rec? && Get(e.data, "bindings") == Rec(bs)
    ensures LoadScope(Hash(e), store, included) ==
            LoadBindings(CanonicalKeys(bs.Keys), bs, store + included, map[], {e})
  {
  }

  lemma CapturedBindingLoads(v: Value, available: set<Entity>)
    ensures var b := LoadBinding(CaptureBinding(v), available);
            if v.Ent? && BareEntity(v.entity) !in available
            then b.Unbound? && Get(ErrorData(b.error), "code") == Str(SCOPE_UNREACHABLE)
            else b.Bound? && b.value == Bare(v) && b.mark == if v.Ent? then {BareEntity(v.entity)} else {}
  {
    var c := CaptureBinding(v);
    assert "kind" in c.fields;
    assert c.fields["kind"] == Str(if v.Ent? then "entity" else "value");
  }

  lemma {:induction false} UnboundStops(keys: seq<string>, bs: map<string, Value>, available: set<Entity>,
                                        scope: Scope, marks: set<Entity>)
    requires forall k | k in keys :: k in bs
    requires forall k | k in keys :: LoadBinding(bs[k], available).Unbound? ==>
               Get(ErrorData(LoadBinding(bs[k], available).error), "code") == Str(SCOPE_UNREACHABLE)
    ensures var r := LoadBindings(keys, bs, available, scope, marks);
            if forall k | k in keys :: LoadBinding(bs[k], available).Bound? then r.Loaded?
            else r.LoadError? && Get(ErrorData(r.error), "code") == Str(SCOPE_UNREACHABLE)
  {
    hide LoadBinding, ErrorData;
    if keys != [] {
      match LoadBinding(bs[keys[0]], available)
      case Unbound(_) =>
      case Bound(v, mark) => UnboundStops(keys[1..], bs, available, scope[keys[0] := v], marks + mark);
    }
  }

  /**
   A captured scope fails to load exactly when its entity is not stored, as not found, or when the
   entity of some binding is neither stored nor in the envelope, as unreachable.
   */
  lemma CaptureLoadsIff(s: Scope, store: set<Entity>, included: set<Entity>)
    requires s != map[]
    ensures var r := LoadScope(CaptureHash(s), store, included);
            if ScopeEntity(s) !in store then r.LoadError? && Get(ErrorData(r.error), "code") == Str(NOT_FOUND)
            else if forall x | x in s && s[x].Ent? :: BareEntity(s[x].entity) in store + included then r.Loaded?
            else r.LoadError? && Get(ErrorData(r.error), "code") == Str(SCOPE_UNREACHABLE)
  {
    if ScopeEntity(s) in store {
      hide LoadScope, LoadBinding, LoadBindings, ErrorData, BareEntity, ScopeEntity, CaptureBinding;
      var bs := CapturedBindings(s);
      forall x | x in s
        ensures LoadBinding(bs[x], store + included).Unbound? <==>
                s[x].Ent? && BareEntity(s[x].entity) !in store + included
        ensures LoadBinding(bs[x], store + included).Unbound? ==>
                  Get(ErrorData(LoadBinding(bs[x], store + included).error), "code") == Str(SCOPE_UNREACHABLE)
      {
        CapturedBindingLoads(s[x], store + included);
      }
      StoredScope(s);
      LoadOfStored(ScopeEntity(s), bs, store, included);
      UnboundStops(CanonicalKeys(bs.Keys), bs, store + included, map[], {ScopeEntity(s)});
    }
  }

  lemma StoredScope(s: Scope)
    ensures ScopeEntity(s).data.Rec? && Get(ScopeEntity(s).data, "bindings") == Rec(CapturedBindings(s))
  {
  }

  /** A stored binding that no capture made: a plain value is itself, and a kind that is not known fails. */
  lemma ForeignBindings(b: Value, available: set<Entity>)
    ensures !(b.Rec? && "kind" in b.fields) ==> LoadBinding(b, available) == Bound(b, {})
    ensures b.Rec? && "kind" in b.fields && b.fields["kind"] !in {Str("value"), Str("entity")} ==>
              var r := LoadBinding(b, available);
              r.Unbound? && Get(ErrorData(r.error), "code") == Str(INVALID_EXPRESSION)
  {
  }

  /** A stored scope without data or without bindings is empty, one whose data is no record cannot be read. */
  lemma ForeignScopes(e: Entity, store: set<Entity>, included: set<Entity>)
    requires e in store
    ensures var r := LoadScope(Hash(e), store, included);
            && (e.data.Null? || (e.data.Rec? && Get(e.data, "bindings").Null?) ==> r == Loaded(map[], {e}))
            && (!e.data.Null? && !e.data.Rec? ==> r.LoadRaises?)
  {
  }

  // ---------------------------------------------------------------- when capture is the identity

  /** No live entity below the top and no error in an array position, in elements, ... */
  predicate SettledElements(es: seq<Value>) {
    forall i | 0 <= i < |es| :: !IsError(es[i]) && SettledField(es[i])
  }

  /** ... in a field or an element, ... */
  predicate SettledField(v: Value) {
    !v.Ent? && (v.Arr? ==> SettledElements(v.elems))
  }

  /** ... and in a binding. */
  predicate Settled(v: Value) {
    match v
    case Arr(es) => SettledElements(es)
    case Ent(e) =>
      (match e.data
       case Arr(es) => SettledElements(es)
       case Rec(m) => forall k | k in m :: SettledField(m[k])
       case _ => true)
    case _ => true
  }

  lemma {:induction false} FieldSettled(v: Value)
    ensures BareField(v) == v <==> SettledField(v)
  {
    if v.Arr? { ElementsSettled(v.elems); }
  }

  lemma {:induction false} ElementsSettled(es: seq<Value>)
    ensures BareElements(es) == es <==> SettledElements(es)
  {
    forall i | 0 <= i < |es| ensures BareElement(es[i]) == es[i] <==> !IsError(es[i]) && SettledField(es[i]) {
      FieldSettled(es[i]);
    }
    assert BareElements(es) == es <==> forall i | 0 <= i < |es| :: BareElement(es[i]) == es[i];
  }

  /** The bare form of a value is the value itself exactly when it is settled. */
  lemma BareFixedIffSettled(v: Value)
    ensures Bare(v) == v <==> Settled(v)
  {
    match v
    case Arr(es) => ElementsSettled(es);
    case Ent(e) =>
      match e.data {
        case Arr(es) => ElementsSettled(es);
        case Rec(m) =>
          forall k | k in m ensures BareField(m[k]) == m[k] <==> SettledField(m[k]) { FieldSettled(m[k]); }
          var bare := map k | k in m :: BareField(m[k]);
          assert bare == m <==> forall k | k in m :: bare[k] == m[k];
        case _ =>
      }
    case _ =>
  }

  /**
   Loading a captured scope is the identity exactly when every binding is settled: no live entity
   below its top, no error in an array position.
   */
  lemma CaptureIsIdentityIffSettled(s: Scope, store: set<Entity>, included: set<Entity>)
    requires CaptureMarks(s) <= store + included && (s != map[] ==> ScopeEntity(s) in store)
    ensures var r := LoadScope(CaptureHash(s), store, included);
            r.Loaded? && (r.scope == s <==> forall x | x in s :: Settled(s[x]))
  {
    hide LoadScope, CaptureHash, CaptureMarks, Settled, Bare, ScopeEntity;
    LoadOfCapture(s, store, included);
    forall x | x in s ensures Bare(s[x]) == s[x] <==> Settled(s[x]) { BareFixedIffSettled(s[x]); }
    var loaded := MaterializedScope(s);
    assert loaded == s <==> forall x | x in s :: loaded[x] == s[x];
  }

  lemma StoredIsMarked(s: Scope)
    requires s != map[]
    ensures ScopeEntity(s) in CaptureMarks(s)
  {
  }

  /** A scope that does not come back: an entity with a live entity in a field. */
  lemma CaptureIsNotIdentity(inner: Entity, store: set<Entity>, included: set<Entity>)
    ensures var s := map["x" := Ent(Entity(Named("record"), Rec(map["field" := Ent(inner)])))];
            CaptureMarks(s) <= store ==> LoadScope(CaptureHash(s), store, included).Loaded? &&
                                         LoadScope(CaptureHash(s), store, included).scope != s
  {
    hide LoadScope, CaptureHash, CaptureMarks;
    var m := map["field" := Ent(inner)];
    var s := map["x" := Ent(Entity(Named("record"), Rec(m)))];
    if CaptureMarks(s) <= store {
      assert !SettledField(m["field"]);
      assert !Settled(s["x"]);
      assert ScopeEntity(s) in CaptureMarks(s) by { StoredIsMarked(s); }
      CaptureIsIdentityIffSettled(s, store, included);
    }
  }
}
