/**
 The compute evaluator: `evaluate` with its tail-call trampoline and operation and depth
 budget, the sixteen expression forms, closures with captured scopes, and the collection
 builtins.  The budget and the mutable part of the evaluation context are one `State`,
 threaded through the expression forms in the order the evaluator touches it.
 */
module Evaluator {
  import opened Values
  import opened Integers
  import opened Materialize

  /** The part of the evaluation context that evaluation never changes. */
  datatype Env = Env(
    included: set<Entity>,        // entities of the request envelope
    tree: map<string, Entity>,    // path to the entity whose hash is bound there
    hasAccess: bool,              // content_store_access
    authorized: set<Entity>,      // the sealed set of an installed subgraph
    root: string,                 // subgraph root for relative paths
    readable: string -> bool)     // read permission of the evaluating capability

  /**
   Budget and mutable context.  The last three fields only record what happened and are
   never read: whether a budget or depth error was minted, how many expression steps were
   taken, and how many elements `range` produced.
   */
  datatype State = State(
    ops: int, depth: int,
    store: set<Entity>, encountered: set<Entity>, deps: seq<string>,
    tripped: bool, steps: nat, produced: nat)

  /** Raised: a Python exception.  Dispatched: control left for a handler or a tree write. */
  datatype Why = Raised | Dispatched

  datatype Step = Done(v: Value) | Tail(next: Entity, scope: Scope) | Abort(why: Why)

  datatype Reply = Reply(step: Step, st: State)

  function Pos(n: int): nat { if n > 0 then n else 0 }

  /** What every part of an evaluation keeps: it only spends, appends and adds. */
  predicate Follows(a: State, b: State) {
    && b.ops <= a.ops
    && a.store <= b.store && a.encountered <= b.encountered && a.deps <= b.deps
    && a.steps <= b.steps && a.produced <= b.produced
    && (a.tripped ==> b.tripped)
    && b.steps + b.produced + Pos(b.ops) <= a.steps + a.produced + Pos(a.ops)
    && (!b.tripped ==> a.ops - b.ops == (b.steps - a.steps) + (b.produced - a.produced))
  }

  /** A reply that keeps `Follows` and, unless it aborts, gives the depth back. */
  predicate Keeps(st: State, r: Reply) {
    Follows(st, r.st) && (!r.step.Abort? ==> r.st.depth == st.depth)
  }

  function Fail(code: string, message: string, st: State): (r: Reply) {
    Reply(Done(Error(code, message)), st)
  }

  // ---------------------------------------------------------------- resolution

  function Validate(e: Entity, env: Env): Option<Entity> {
    if env.hasAccess || IsResolvableType(e.typ) || e in env.authorized then Some(e) else None
  }

  function Resolve(ref: Value, env: Env, st: State): (r: Option<Entity>)
    ensures r.Some? ==> ref == Hash(r.value)
  {
    if !ref.Hash? then None
    else
      var e := ref.target;
      if e in env.included then Validate(e, env)
      else if env.hasAccess then (if e in st.store then Some(e) else None)
      else if e in st.store && (e in st.encountered || e in env.tree.Values) then Validate(e, env)
      else if e in st.store && e in env.authorized then Some(e)
      else None
  }

  /** The end of a form in tail position: continue with the referenced expression. */
  function TailTo(ref: Value, scope: Scope, env: Env, st: State): (r: Reply)
    ensures r.st == st
  {
    if !IsBytes(ref) then Fail(INVALID_EXPRESSION, "missing hash", st)
    else match Resolve(ref, env, st)
      case None => Fail(NOT_FOUND, "cannot resolve hash", st)
      case Some(e) => Reply(if e.typ.ErrorValue? then Done(Ent(e)) else Tail(e, scope), st)
  }

  // ---------------------------------------------------------------- trampoline

  function Evaluate(e: Entity, scope: Scope, env: Env, st: State): (r: Reply)
    ensures !r.step.Tail? && Keeps(st, r)
    decreases Pos(st.ops), 1
  {
    if st.depth <= 0 then Fail(DEPTH_EXCEEDED, "maximum evaluation depth exceeded", st.(tripped := true))
    else Trampoline(e, scope, env, st.(depth := st.depth - 1))
  }

  /** The loop of `evaluate`: every iteration costs one operation, tail calls reuse the depth slot. */
  function Trampoline(e: Entity, scope: Scope, env: Env, st: State): (r: Reply)
    ensures !r.step.Tail? && Follows(st, r.st)
    ensures r.step.Done? ==> r.st.depth == st.depth + 1
    decreases Pos(st.ops), 0
  {
    var spent := st.(ops := st.ops - 1);
    if spent.ops <= 0 then
      Fail(BUDGET_EXHAUSTED, "computation budget exhausted", spent.(depth := spent.depth + 1, tripped := true))
    else
      var r := Inner(e, scope, env, spent.(steps := spent.steps + 1));
      match r.step
      case Tail(next, scope') => Trampoline(next, scope', env, r.st)
      case Done(_) => r.(st := r.st.(depth := r.st.depth + 1))
      case Abort(_) => r
  }

  /** Dispatch by expression type. */
  function Inner(e: Entity, scope: Scope, env: Env, st: State): (r: Reply)
    ensures Keeps(st, r)
    decreases Pos(st.ops), 6
  {
    if IsValueType(e.typ) then Reply(Done(Ent(e)), st)
    else if !IsExpressionType(e.typ) then Fail(UNKNOWN_TYPE, "unknown compute type", st)
    else if !e.data.Rec? then Reply(Abort(Raised), st)
    else match e.typ
      case Literal => Reply(Done(Get(e.data, "value")), st)
      case LookupScope => EvalLookupScope(e, scope, st)
      case LookupTree => EvalLookupTree(e, scope, env, st)
      case LookupHash => EvalLookupHash(e, scope, env, st)
      case Apply => EvalApply(e, scope, env, st)
      case If => EvalIf(e, scope, env, st)
      case Let => EvalLet(e, scope, env, st)
      case Lambda => EvalLambda(e, scope, st)
      case Index => EvalIndex(e, scope, env, st)
      case _ => EvalStrict(e, scope, env, st)
  }

  // ---------------------------------------------------------------- lookups

  function EvalLookupScope(e: Entity, scope: Scope, st: State): (r: Reply)
    ensures r.st == st && !r.step.Tail?
  {
    var name := GetOr(e.data, "name", Str(""));
    if Unhashable(name) then Reply(Abort(Raised), st)
    else if name.Str? && name.s in scope then Reply(Done(scope[name.s]), st)
    else Fail(NOT_FOUND, "no scope binding", st)
  }

  /** A permitted read registers its path before it looks anything up. */
  function EvalLookupTree(e: Entity, scope: Scope, env: Env, st: State): (r: Reply)
    ensures Keeps(st, r)
  {
    match LookupPath(e, env.root)
    case None => Reply(Abort(Raised), st)
    case Some(path) =>
      if !env.readable(path) then Fail(PERMISSION_DENIED, "no read access", st)
      else
        var read := st.(deps := st.deps + [path]);
        if path !in env.tree then Fail(NOT_FOUND, "no entity at path", read)
        else
          var bound := env.tree[path];
          var marked := read.(encountered := read.encountered + {bound});
          if bound !in st.store then Fail(NOT_FOUND, "no entity at path", marked)
          else if IsExpressionType(bound.typ) then Reply(Tail(bound, scope), marked)
          else Reply(Done(Ent(bound)), marked)
  }

  function EvalLookupHash(e: Entity, scope: Scope, env: Env, st: State): (r: Reply)
    ensures r.st == st
  {
    var ref := Get(e.data, "hash");
    if !IsBytes(ref) then Fail(INVALID_EXPRESSION, "lookup/hash missing hash field", st)
    else match Resolve(ref, env, st)
      case None => Fail(NOT_FOUND, "cannot resolve hash", st)
      case Some(t) => Reply(if IsExpressionType(t.typ) then Tail(t, scope) else Done(Ent(t)), st)
  }

  // ---------------------------------------------------------------- operands

  /** An operand is a value, or the form stops early with a step of its own. */
  datatype Operand = Got(v: Value) | Stop(step: Step)

  datatype OperandReply = OperandReply(out: Operand, st: State)

  predicate KeepsOperand(st: State, r: OperandReply) {
    && Follows(st, r.st)
    && (r.out.Stop? ==> !r.out.step.Tail?)
    && (!(r.out.Stop? && r.out.step.Abort?) ==> r.st.depth == st.depth)
  }

  /**
   Resolve a reference and evaluate it.  An error short-circuits the form, unless the operand sits
   in a contained position; failing to resolve always does.
   */
  function EvalOperand(ref: Value, missing: string, contained: bool, scope: Scope, env: Env,
      st: State): (r: OperandReply)
    ensures KeepsOperand(st, r)
    ensures r.out.Got? && !contained ==> !IsError(r.out.v)
    decreases Pos(st.ops), 2
  {
    if ref.Null? then OperandReply(Stop(Done(Error(missing, "missing operand"))), st)
    else if !IsBytes(ref) then OperandReply(Stop(Done(Error(INVALID_EXPRESSION, "operand is not a hash"))), st)
    else match Resolve(ref, env, st)
      case None => OperandReply(Stop(Done(Error(NOT_FOUND, "cannot resolve hash"))), st)
      case Some(e) =>
        if e.typ.ErrorValue? && !contained then OperandReply(Stop(Done(Ent(e))), st)
        else
          var r := Evaluate(e, scope, env, st);
          if r.step.Done? && (contained || !IsError(r.step.v)) then OperandReply(Got(r.step.v), r.st)
          else OperandReply(Stop(r.step), r.st)
  }

  /** One operand of a form that evaluates several; `Broken` is a malformed one that raises. */
  datatype Item = Item(name: string, ref: Value, missing: string, contained: bool) | Broken

  datatype Operands = All(values: Scope) | Early(step: Step)

  datatype OperandsReply = OperandsReply(out: Operands, st: State)

  predicate KeepsOperands(st: State, r: OperandsReply) {
    && Follows(st, r.st)
    && (r.out.Early? ==> !r.out.step.Tail?)
    && (!(r.out.Early? && r.out.step.Abort?) ==> r.st.depth == st.depth)
  }

  /** Evaluates operands in order into `acc`; a `let` sees its earlier bindings (grow), other forms do not. */
  function EvalOperands(items: seq<Item>, grow: bool, acc: Scope, scope: Scope, env: Env, st: State): (r: OperandsReply)
    ensures KeepsOperands(st, r)
    decreases Pos(st.ops), 3, |items|
  {
    if items == [] then OperandsReply(All(acc), st)
    else match items[0]
      case Broken => OperandsReply(Early(Abort(Raised)), st)
      case Item(name, ref, missing, contained) =>
        var a := EvalOperand(ref, missing, contained, if grow then acc else scope, env, st);
        match a.out
        case Stop(step) => OperandsReply(Early(step), a.st)
        case Got(v) => EvalOperands(items[1..], grow, acc[name := v], scope, env, a.st)
  }

  // ---------------------------------------------------------------- if, let, lambda, index

  function EvalIf(e: Entity, scope: Scope, env: Env, st: State): (r: Reply)
    ensures Keeps(st, r)
    decreases Pos(st.ops), 5
  {
    var c := EvalOperand(Get(e.data, "condition"), INVALID_EXPRESSION, false, scope, env, st);
    match c.out
    case Stop(step) => Reply(step, c.st)
    case Got(v) =>
      if Truthy(v) then TailTo(Get(e.data, "then"), scope, env, c.st)
      else if Get(e.data, "else").Null? then Reply(Done(Null), c.st)
      else TailTo(Get(e.data, "else"), scope, env, c.st)
  }

  function LetItem(b: Value): Item {
    if !b.Rec? then Broken
    else
      var name := Get(b, "name");
      if name.Null? then Item("", Null, INVALID_EXPRESSION, false)
      else if !name.Str? then Broken
      else Item(name.s, Get(b, "value"), INVALID_EXPRESSION, false)
  }

  function LetItems(bs: seq<Value>): seq<Item> {
    if bs == [] then [] else [LetItem(bs[0])] + LetItems(bs[1..])
  }

  function EvalLet(e: Entity, scope: Scope, env: Env, st: State): (r: Reply)
    ensures Keeps(st, r)
    decreases Pos(st.ops), 5
  {
    var bindings := GetOr(e.data, "bindings", Arr([]));
    if !bindings.Arr? then Reply(Abort(Raised), st)
    else
      var bs := EvalOperands(LetItems(bindings.elems), true, scope, scope, env, st);
      match bs.out
      case Early(step) => Reply(step, bs.st)
      case All(inner) => TailTo(Get(e.data, "body"), inner, env, bs.st)
  }

  function MakeClosure(e: Entity, scope: Scope): Entity {
    Entity(Closure, Rec(map["params" := GetOr(e.data, "params", Arr([])),
                            "body" := Get(e.data, "body"),
                            "env" := CaptureHash(scope)]))
  }

  function EvalLambda(e: Entity, scope: Scope, st: State): (r: Reply)
    ensures Keeps(st, r)
  {
    if CaptureRaises(scope) then Reply(Abort(Raised), st)
    else Reply(Done(Ent(MakeClosure(e, scope))),
               st.(store := st.store + CapturePuts(scope), encountered := st.encountered + CaptureMarks(scope)))
  }

  function EvalIndex(e: Entity, scope: Scope, env: Env, st: State): (r: Reply)
    ensures Keeps(st, r)
    decreases Pos(st.ops), 5
  {
    var arrayRef, indexRef := Get(e.data, "array"), Get(e.data, "index");
    if !IsBytes(arrayRef) || !IsBytes(indexRef) then Fail(INVALID_EXPRESSION, "index missing hash", st)
    else
      var a := EvalOperand(arrayRef, INVALID_EXPRESSION, false, scope, env, st);
      match a.out
      case Stop(step) => Reply(step, a.st)
      case Got(xs) =>
        if !xs.Arr? then Fail(TYPE_MISMATCH, "index requires an array", a.st)
        else
          var i := EvalOperand(indexRef, INVALID_EXPRESSION, false, scope, env, a.st);
          match i.out
          case Stop(step) => Reply(step, i.st)
          case Got(index) =>
            if !index.Int? then Fail(TYPE_MISMATCH, "index requires an integer", i.st)
            else if index.i < 0 || index.i >= |xs.elems| then Fail(INDEX_OUT_OF_RANGE, "index out of range", i.st)
            else Reply(Done(xs.elems[index.i]), i.st)
  }

  // ---------------------------------------------------------------- strict forms

  function Required(e: Entity, name: string): Item {
    Item(name, Get(e.data, name), INVALID_EXPRESSION, false)
  }

  /** A `{name: hash}` field as operands in canonical key order. */
  function MapItems(keys: seq<string>, m: map<string, Value>, contained: set<string>): seq<Item>
    requires forall k | k in keys :: k in m
  {
    if keys == [] then []
    else [Item(keys[0], m[keys[0]], INVALID_EXPRESSION, keys[0] in contained)] + MapItems(keys[1..], m, contained)
  }

  /** The forms that evaluate all their operands before they combine them. */
  predicate IsStrict(t: Type) {
    t.Arithmetic? || t.Compare? || t.Logic? || t.Field? || t.Length? || t.NumericCast? || t.Construct?
  }

  /** The operands of the forms that evaluate all of them and then combine the values. */
  function StrictItems(e: Entity): Option<seq<Item>> {
    match e.typ
    case Arithmetic => Some([Required(e, "left"), Required(e, "right")])
    case Compare => Some([Required(e, "left"), Required(e, "right")])
    case Logic =>
      if GetOr(e.data, "op", Str("")) == Str("not") then Some([Required(e, "left")])
      else Some([Required(e, "left"), Required(e, "right")])
    case Field => Some([Required(e, "entity")])
    case Length => Some([Required(e, "array")])
    case NumericCast => Some([Required(e, "value")])
    case _ =>
      var fields := Get(e.data, "fields");
      if fields.Rec? then Some(MapItems(CanonicalKeys(fields.fields.Keys), fields.fields, {}))
      else if Truthy(fields) then None
      else Some([])
  }

  function ReadField(target: Value, name: Value): Step {
    var record := if target.Ent? then target.entity.data else target;
    if !record.Rec? then Done(Error(TYPE_MISMATCH, "field access requires an entity or record"))
    else if Unhashable(name) then Abort(Raised)
    else if name.Str? && name.s in record.fields then Done(record.fields[name.s])
    else Done(Error(NOT_FOUND, "field not found"))
  }

  function ApplyLogic(op: Value, values: Scope): (v: Value)
    ensures NoLive(v) && Refs(v) == {}
  {
    var left := Truthy(Get(Rec(values), "left"));
    var right := Truthy(Get(Rec(values), "right"));
    if op == Str("not") then Bool(!left)
    else if op == Str("and") then Bool(left && right)
    else if op == Str("or") then Bool(left || right)
    else Error(INVALID_EXPRESSION, "unknown logic op")
  }

  /** What a strict form makes of its operand values. */
  function Combine(e: Entity, values: Scope): Step {
    var op := GetOr(e.data, "op", Str(""));
    var left, right := Get(Rec(values), "left"), Get(Rec(values), "right");
    var lUint, rUint := IsUintCast(Get(e.data, "left")), IsUintCast(Get(e.data, "right"));
    match e.typ
    case Arithmetic => Done(ApplyArithmetic(op, left, right, lUint, rUint))
    case Compare => Done(ApplyCompare(op, left, right, lUint, rUint))
    case Logic => Done(ApplyLogic(op, values))
    case Field => ReadField(Get(Rec(values), "entity"), GetOr(e.data, "name", Str("")))
    case Length =>
      var xs := Get(Rec(values), "array");
      Done(if xs.Arr? then Int(|xs.elems|) else Error(TYPE_MISMATCH, "length requires an array"))
    case NumericCast => Done(ApplyNumericCast(Get(e.data, "to_type"), Get(Rec(values), "value")))
    case _ =>
      var t := GetOr(e.data, "entity_type", Str(""));
      if t.Str? then Done(Ent(Entity(TypeNamed(t.s), Rec(values)))) else Abort(Raised)
  }

  function EvalStrict(e: Entity, scope: Scope, env: Env, st: State): (r: Reply)
    ensures Keeps(st, r)
    decreases Pos(st.ops), 5
  {
    match StrictItems(e)
    case None => Reply(Abort(Raised), st)
    case Some(items) =>
      var vs := EvalOperands(items, false, map[], scope, env, st);
      match vs.out
      case Early(step) => Reply(step, vs.st)
      case All(values) => Reply(Combine(e, values), vs.st)
  }

  // ---------------------------------------------------------------- apply

  datatype Builtin = Map | Filter | Fold | GroupBy | Range | Concat | Assoc | Store | Alias(form: Type) | Handler

  const BUILTIN_PREFIX := "system/compute/builtins/"

  predicate HasBuiltinPrefix(path: string) {
    |path| >= |BUILTIN_PREFIX| && path[..|BUILTIN_PREFIX|] == BUILTIN_PREFIX
  }

  function BuiltinNamed(path: string): Builtin {
    if !HasBuiltinPrefix(path) then Handler
    else
      var name := path[|BUILTIN_PREFIX|..];
      if name == "map" then Map
      else if name == "filter" then Filter
      else if name == "fold" then Fold
      else if name == "group-by" then GroupBy
      else if name == "range" then Range
      else if name == "concat" then Concat
      else if name == "assoc" then Assoc
      else if name == "store" then Store
      else if name == "arithmetic" then Alias(Arithmetic)
      else if name == "compare" then Alias(Compare)
      else if name == "logic" then Alias(Logic)
      else if name == "field" then Alias(Field)
      else if name == "construct" then Alias(Construct)
      else Handler
  }

  /** The builtin an apply names, if it names any path at all. */
  function ApplyTarget(e: Entity): Option<Builtin> {
    var path := Get(e.data, "path");
    if path.Str? then Some(BuiltinNamed(path.s)) else None
  }

  /** Argument positions whose value is placed without being read. */
  function ContainedArgs(b: Builtin): set<string> {
    match b
    case Store => {"value"}
    case Assoc => {"value"}
    case Fold => {"initial"}
    case _ => {}
  }

  function EvalApply(e: Entity, scope: Scope, env: Env, st: State): (r: Reply)
    ensures Keeps(st, r)
    decreases Pos(st.ops), 5, 1
  {
    if !Get(e.data, "path").Null? then EvalApplyHandler(e, scope, env, st)
    else if !Get(e.data, "fn").Null? then EvalApplyClosure(e, scope, env, st)
    else Fail(INVALID_EXPRESSION, "apply requires path or fn", st)
  }

  /** `entity.data.get("args") or {}`; None when it is neither a record nor falsy. */
  function ArgsOf(e: Entity): Option<map<string, Value>> {
    var args := Get(e.data, "args");
    if args.Rec? then Some(args.fields) else if Truthy(args) then None else Some(map[])
  }

  function EvalApplyHandler(e: Entity, scope: Scope, env: Env, st: State): (r: Reply)
    ensures Keeps(st, r)
    decreases Pos(st.ops), 5, 0
  {
    var path := Get(e.data, "path");
    if Get(e.data, "operation").Null? then Fail(INVALID_EXPRESSION, "handler mode requires operation", st)
    else if !path.Str? then Reply(Abort(Raised), st)
    else if HasBuiltinPrefix(path.s) && (!Get(e.data, "capability").Null? || !Get(e.data, "resource").Null?) then
      Fail(INVALID_EXPRESSION, "builtin path must not carry capability or resource", st)
    else match ArgsOf(e)
      case None => Reply(Abort(Raised), st)
      case Some(args) =>
        var b := BuiltinNamed(path.s);
        if b.Alias? then EvalAlias(b.form, args, scope, env, st)
        else EvalCall(b, args, scope, env, st)
  }

  /** Arguments are evaluated in canonical key order. */
  function EvalCall(b: Builtin, args: map<string, Value>, scope: Scope, env: Env, st: State): (r: Reply)
    requires !b.Alias?
    ensures Keeps(st, r)
    decreases Pos(st.ops), 4, 1
  {
    var vs := EvalOperands(MapItems(CanonicalKeys(args.Keys), args, ContainedArgs(b)), false, map[], scope, env, st);
    match vs.out
    case Early(step) => Reply(step, vs.st)
    case All(values) => EvalBuiltin(b, values, env, vs.st)
  }

  /** The argument of an inline-equivalent builtin that the inline form holds as a plain value. */
  function ScalarName(form: Type): string {
    match form
    case Construct => "entity_type"
    case Field => "name"
    case _ => "op"
  }

  /** The inline expression an alias stands for. */
  function InlineForm(form: Type, args: map<string, Value>, scalar: Option<Value>): Entity {
    var name := ScalarName(form);
    if form.Construct? then
      Entity(form, Rec(map["fields" := Rec(args - {name}),
                           "entity_type" := if scalar.Some? then scalar.value else Str("")]))
    else
      Entity(form, Rec(if scalar.Some? then args[name := scalar.value] else args))
  }

  function EvalAlias(form: Type, args: map<string, Value>, scope: Scope, env: Env, st: State): (r: Reply)
    ensures Keeps(st, r)
    decreases Pos(st.ops), 4, 0
  {
    var name := ScalarName(form);
    if exists k | k in args :: !IsBytes(args[k]) then Fail(INVALID_EXPRESSION, "argument is not a hash", st)
    else if name !in args then Reply(Tail(InlineForm(form, args, None), scope), st)
    else
      var a := EvalOperand(args[name], INVALID_EXPRESSION, false, scope, env, st);
      match a.out
      case Stop(step) => Reply(step, a.st)
      case Got(v) => Reply(Tail(InlineForm(form, args, Some(v)), scope), a.st)
  }

  // ---------------------------------------------------------------- closures

  datatype Opened = Closed(step: Step, st: State) | Open(data: Value, scope: Scope, st: State)

  /** Checks that a value is a closure and loads its captured scope. */
  function OpenClosure(fn: Value, env: Env, st: State): (r: Opened)
    ensures Follows(st, r.st) && r.st.depth == st.depth
    ensures r.Closed? ==> !r.step.Tail?
    ensures r.Open? ==> r.data.Rec?
  {
    if TypeOf(fn) != Some(Closure) then Closed(Done(Error(TYPE_MISMATCH, "not a closure")), st)
    else
      var data := DataOf(fn);
      if data.Null? then Closed(Done(Error(TYPE_MISMATCH, "closure has no data")), st)
      else if !data.Rec? then Closed(Abort(Raised), st)
      else match LoadScope(Get(data, "env"), st.store, env.included)
        case LoadRaises => Closed(Abort(Raised), st)
        case LoadError(error, marks) => Closed(Done(error), st.(encountered := st.encountered + marks))
        case Loaded(scope, marks) => Open(data, scope, st.(encountered := st.encountered + marks))
  }

  predicate AllStrings(vs: seq<Value>) {
    forall i | 0 <= i < |vs| :: vs[i].Str?
  }

  function Names(vs: seq<Value>): (r: seq<string>)
    requires AllStrings(vs)
    ensures |r| == |vs|
  {
    if vs == [] then [] else [vs[0].s] + Names(vs[1..])
  }

  /** The parameter names of a closure; None when the field is malformed. */
  function ParamNames(data: Value): Option<seq<string>> {
    var ps := GetOr(data, "params", Arr([]));
    if ps.Arr? && AllStrings(ps.elems) then Some(Names(ps.elems)) else None
  }

  function ParamItems(ps: seq<string>, args: map<string, Value>): seq<Item> {
    if ps == [] then []
    else [Item(ps[0], if ps[0] in args then args[ps[0]] else Null, MISSING_ARGUMENT, false)] + ParamItems(ps[1..], args)
  }

  /** A closure body is looked up without a check that it is a hash. */
  function CallBody(body: Value, inner: Scope, env: Env, st: State): (r: Reply)
    ensures r.st == st
  {
    if Unhashable(body) then Reply(Abort(Raised), st)
    else if !body.Null? && !IsBytes(body) then Fail(NOT_FOUND, "cannot resolve hash", st)
    else TailTo(body, inner, env, st)
  }

  /** Arguments are evaluated in the caller's scope, in parameter order; the body is a tail call. */
  function EvalApplyClosure(e: Entity, scope: Scope, env: Env, st: State): (r: Reply)
    ensures Keeps(st, r)
    decreases Pos(st.ops), 5, 0
  {
    var f := EvalOperand(Get(e.data, "fn"), INVALID_EXPRESSION, false, scope, env, st);
    match f.out
    case Stop(step) => Reply(step, f.st)
    case Got(fn) =>
      match OpenClosure(fn, env, f.st)
      case Closed(step, st1) => Reply(step, st1)
      case Open(data, captured, st1) =>
        match ParamNames(data)
        case None => Reply(Abort(Raised), st1)
        case Some(ps) =>
          match ArgsOf(e)
          case None => Reply(Abort(Raised), st1)
          case Some(args) =>
            var vs := EvalOperands(ParamItems(ps, args), false, captured, scope, env, st1);
            match vs.out
            case Early(step) => Reply(step, vs.st)
            case All(inner) =>
              CallBody(Get(data, "body"), inner, env, vs.st)
  }

  function BindAll(scope: Scope, ps: seq<string>, vals: seq<Value>): Scope
    requires |ps| == |vals|
    decreases |ps|
  {
    if ps == [] then scope else BindAll(scope[ps[0] := vals[0]], ps[1..], vals[1..])
  }

  /** Applies a closure to values in hand; unlike a tail call this takes a depth slot. */
  function Invoke(fn: Value, vals: seq<Value>, env: Env, st: State): (r: Reply)
    ensures !r.step.Tail? && Keeps(st, r)
    decreases Pos(st.ops), 2
  {
    match OpenClosure(fn, env, st)
    case Closed(step, st1) => Reply(step, st1)
    case Open(data, captured, st1) =>
      match ParamNames(data)
      case None => Reply(Abort(Raised), st1)
      case Some(ps) =>
        if |ps| != |vals| then Fail(MISSING_ARGUMENT, "wrong number of arguments", st1)
        else if !IsBytes(Get(data, "body")) then Fail(INVALID_EXPRESSION, "closure has no body", st1)
        else match Resolve(Get(data, "body"), env, st1)
          case None => Fail(NOT_FOUND, "cannot resolve hash", st1)
          case Some(body) =>
            if body.typ.ErrorValue? then Reply(Done(Ent(body)), st1)
            else Evaluate(body, BindAll(captured, ps, vals), env, st1)
  }

  // ---------------------------------------------------------------- collection builtins

  datatype Group = Group(id: Value, key: Value, members: seq<Value>)

  /** What a collection builtin has accumulated so far. */
  datatype Accum = Items(items: seq<Value>) | Folded(v: Value) | Groups(groups: seq<Group>)

  datatype Absorbed = More(acc: Accum) | Halt(v: Value)

  /** The identity a group-by key is compared by: its bare form, when that can be encoded. */
  function KeyId(key: Value): Option<Value> {
    if Raises(key) || key.Ent? || !NoLive(Bare(key)) then None else Some(Bare(key))
  }

  function AddToGroup(groups: seq<Group>, id: Value, key: Value, el: Value): seq<Group> {
    if groups == [] then [Group(id, key, [el])]
    else if groups[0].id == id then [groups[0].(members := groups[0].members + [el])] + groups[1..]
    else [groups[0]] + AddToGroup(groups[1..], id, key, el)
  }

  /** What one closure result does to the accumulator: the consumed and contained positions. */
  function Absorb(b: Builtin, acc: Accum, el: Value, r: Value): Absorbed {
    match acc
    case Folded(_) => if IsShortCircuitLimit(r) then Halt(r) else More(Folded(r))
    case Groups(groups) =>
      if IsError(r) then Halt(r)
      else (match KeyId(r)
            case None => Halt(Error(TYPE_MISMATCH, "group-by key is not encodable"))
            case Some(id) => More(Groups(AddToGroup(groups, id, r, el))))
    case Items(items) =>
      if b.Filter? then
        if IsError(r) then Halt(r) else More(Items(if Truthy(r) then items + [el] else items))
      else
        if IsShortCircuitLimit(r) then Halt(r) else More(Items(items + [r]))
  }

  /** A group-by key is materialized before it is compared, which stores what it holds. */
  function AbsorbStores(acc: Accum, r: Value): set<Entity> {
    if acc.Groups? && !IsError(r) && !Raises(r) then Puts(r) else {}
  }

  const GROUP_TYPE := Named("system/compute/group")

  function GroupEntity(g: Group): Value {
    Ent(Entity(GROUP_TYPE, Rec(map["key" := g.key, "members" := Arr(g.members)])))
  }

  function GroupEntities(gs: seq<Group>): seq<Value> {
    if gs == [] then [] else [GroupEntity(gs[0])] + GroupEntities(gs[1..])
  }

  function Finish(acc: Accum): Value {
    match acc
    case Items(items) => Arr(items)
    case Folded(v) => v
    case Groups(groups) => Arr(GroupEntities(groups))
  }

  /** The values one element's closure call is given. */
  function CallValues(acc: Accum, el: Value): seq<Value> {
    if acc.Folded? then [acc.v, el] else [el]
  }

  /** The element loop of map, filter, fold and group-by. */
  function Collect(b: Builtin, fn: Value, els: seq<Value>, acc: Accum, env: Env, st: State): (r: Reply)
    ensures !r.step.Tail? && Keeps(st, r)
    decreases Pos(st.ops), 3, |els|, 1
  {
    if els == [] then Reply(Done(Finish(acc)), st)
    else CollectRest(b, fn, els, acc, env, Invoke(fn, CallValues(acc, els[0]), env, st))
  }

  /** The loop after the closure has replied for the first element. */
  function CollectRest(b: Builtin, fn: Value, els: seq<Value>, acc: Accum, env: Env, reply: Reply): (r: Reply)
    requires els != [] && !reply.step.Tail?
    ensures !r.step.Tail? && Follows(reply.st, r.st)
    ensures !r.step.Abort? ==> r.st.depth == reply.st.depth
    ensures r.step.Abort? || reply.step.Done?
    decreases Pos(reply.st.ops), 3, |els|, 0
  {
    if !reply.step.Done? then reply
    else
      var st := reply.st.(store := reply.st.store + AbsorbStores(acc, reply.step.v));
      match Absorb(b, acc, els[0], reply.step.v)
      case Halt(v) => Reply(Done(v), st)
      case More(acc') => Collect(b, fn, els[1..], acc', env, st)
  }

  const MAX_ARRAY_LENGTH: int := 0x7fff_ffff_ffff_ffff

  function Count(n: int): seq<Value>
    requires n >= 0
  {
    seq(n, i => Int(i))
  }

  /** `range` is charged per element before it allocates; refusing mints an error without draining the budget. */
  function EvalRange(n: Value, st: State): (r: Reply)
    ensures !r.step.Tail? && Keeps(st, r)
  {
    if !n.Int? then Fail(TYPE_MISMATCH, "range n must be an integer", st)
    else if n.i < 0 || n.i > MAX_ARRAY_LENGTH then Fail(COUNT_OUT_OF_RANGE, "range n must be representable", st)
    else if n.i > st.ops then Fail(BUDGET_EXHAUSTED, "range exceeds remaining budget", st.(tripped := true))
    else Reply(Done(Arr(Count(n.i))), st.(ops := st.ops - n.i, produced := st.produced + n.i))
  }

  datatype Tag = NullTag | BoolTag | IntegerTag | FloatTag | StringTag | BytesTag | ArrayTag | RecordTag
               | TypeTag(t: Type) | OtherTag(v: Value)

  /** The element class `concat` compares; int and uint are one class. */
  function TagOf(v: Value): Tag {
    match v
    case Null => NullTag
    case Bool(_) => BoolTag
    case Int(_) => IntegerTag
    case Flt(_) => FloatTag
    case Str(_) => StringTag
    case Bytes(_) => BytesTag
    case Hash(_) => BytesTag
    case Arr(_) => ArrayTag
    case Ent(e) => TypeTag(e.typ)
    case Rec(m) =>
      if "type" !in m then RecordTag
      else if m["type"].Str? then TypeTag(TypeNamed(m["type"].s)) else OtherTag(m["type"])
  }

  datatype Joined = Joined(out: seq<Value>, tag: Option<Tag>) | Mismatch(error: Value)

  function JoinElements(els: seq<Value>, out: seq<Value>, tag: Option<Tag>): Joined {
    if els == [] then Joined(out, tag)
    else if IsError(els[0]) then JoinElements(els[1..], out + [els[0]], tag)
    else if tag.Some? && tag.value != TagOf(els[0]) then Mismatch(Error(TYPE_MISMATCH, "element types differ"))
    else JoinElements(els[1..], out + [els[0]], Some(TagOf(els[0])))
  }

  function JoinCollections(subs: seq<Value>, out: seq<Value>, tag: Option<Tag>): Joined {
    if subs == [] then Joined(out, tag)
    else if IsError(subs[0]) then Mismatch(subs[0])
    else if !subs[0].Arr? then Mismatch(Error(TYPE_MISMATCH, "each collection must be an array"))
    else match JoinElements(subs[0].elems, out, tag)
      case Mismatch(error) => Mismatch(error)
      case Joined(out', tag') => JoinCollections(subs[1..], out', tag')
  }

  function ApplyConcat(collections: Value): Value {
    if !collections.Arr? then Error(TYPE_MISMATCH, "collections must be an array of arrays")
    else match JoinCollections(collections.elems, [], None)
      case Mismatch(error) => error
      case Joined(out, _) => Arr(out)
  }

  function ApplyAssoc(args: Scope): Value {
    var collection, index := Get(Rec(args), "collection"), Get(Rec(args), "index");
    if !collection.Arr? then Error(TYPE_MISMATCH, "assoc collection must be an array")
    else if !index.Int? then Error(TYPE_MISMATCH, "assoc index must be an integer")
    else if index.i < 0 || index.i >= |collection.elems| then Error(INDEX_OUT_OF_RANGE, "assoc index out of range")
    else if "value" !in args then Error(MISSING_ARGUMENT, "assoc requires a value")
    else Arr(collection.elems[index.i := args["value"]])
  }

  /** Runs a builtin on its evaluated arguments; `store` and handler paths leave the evaluator. */
  function EvalBuiltin(b: Builtin, args: Scope, env: Env, st: State): (r: Reply)
    ensures !r.step.Tail? && Keeps(st, r)
    decreases Pos(st.ops), 4, 0
  {
    match b
    case Range => EvalRange(Get(Rec(args), "n"), st)
    case Concat => Reply(Done(ApplyConcat(Get(Rec(args), "collections"))), st)
    case Assoc => Reply(Done(ApplyAssoc(args)), st)
    case Store => Reply(Abort(Dispatched), st)
    case Alias(_) => Reply(Abort(Dispatched), st)
    case Handler => Reply(Abort(Dispatched), st)
    case _ =>
      var collection, fn := Get(Rec(args), "collection"), Get(Rec(args), "fn");
      var initial := Get(Rec(args), "initial");
      if !collection.Arr? then Fail(TYPE_MISMATCH, "collection must be an array", st)
      else if b.Fold? && IsShortCircuitLimit(initial) then Reply(Done(initial), st)
      else Collect(b, fn, collection.elems, StartOf(b, initial), env, st)
  }

  function StartOf(b: Builtin, initial: Value): Accum {
    if b.Fold? then Folded(initial) else if b.GroupBy? then Groups([]) else Items([])
  }
}
