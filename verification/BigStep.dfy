/**
 A big-step reading of the evaluator: rules that say what value each form gives from the values
 its parts give, at what cost in operations and in depth.  The rules are derived from the
 trampoline; a part in tail position costs operations but no depth.
 */
module BigStep {
  import T = Trampoline
  import opened Values
  import opened Integers
  import opened Materialize
  import opened Evaluator
  import opened BudgetMonotonicity

  /** What an evaluation may rely on: `nodes` resolve, `held` entities are in the store. */
  datatype Ctx = Ctx(env: Env, nodes: set<Entity>, held: set<Entity>)

  predicate Resolvable(env: Env, nodes: set<Entity>, st: State) {
    forall e | e in nodes :: Resolve(Hash(e), env, st) == Some(e)
  }

  predicate Ready(c: Ctx, st: State, k: nat, d: nat) {
    st.ops > k && st.depth >= d && Resolvable(c.env, c.nodes, st) && c.held <= st.store
  }

  /** `k` operations later: depth, dependencies and limits are as before, the store has grown. */
  predicate Ran(st: State, st': State, k: nat) {
    && st'.ops == st.ops - k && st'.depth == st.depth && st'.deps == st.deps && st'.tripped == st.tripped
    && st.store <= st'.store && st.encountered <= st'.encountered
  }

  predicate EndsIn(st: State, r: Reply, v: Value, k: nat, puts: set<Entity>) {
    r.step == Done(v) && Ran(st, r.st, k) && puts <= r.st.store
  }

  /** Evaluation gives `v` for exactly `k` operations, within depth `d`, and leaves `puts` in the store. */
  ghost predicate Gives(c: Ctx, e: Entity, scope: Scope, v: Value, k: nat, d: nat, puts: set<Entity>) {
    forall st | Ready(c, st, k, d) :: EndsIn(st, Evaluate(e, scope, c.env, st), v, k, puts)
  }

  lemma GivesWithin(c: Ctx, e: Entity, scope: Scope, v: Value, k: nat, d: nat, d': nat, puts: set<Entity>)
    requires Gives(c, e, scope, v, k, d, puts) && d <= d'
    ensures Gives(c, e, scope, v, k, d', puts)
  {
    hide Evaluate, Resolvable;
    forall st | Ready(c, st, k, d') ensures EndsIn(st, Evaluate(e, scope, c.env, st), v, k, puts) {
      assert Ready(c, st, k, d);
    }
  }

  /** Whatever the budget, an evaluation that hits no limit costs the same and never overdraws. */
  lemma UntrippedCost(c: Ctx, e: Entity, scope: Scope, v: Value, k: nat, d: nat, puts: set<Entity>, st: State)
    requires Gives(c, e, scope, v, k, d, puts) && !Evaluate(e, scope, c.env, st).st.tripped
    requires st.ops >= 0 && st.depth >= d && Resolvable(c.env, c.nodes, st) && c.held <= st.store
    ensures var r := Evaluate(e, scope, c.env, st); r.st.ops == st.ops - k && r.st.ops >= 0 && r.step == Done(v)
  {
    hide Evaluate, Resolvable;
    var r := Evaluate(e, scope, c.env, st);
    var more := if st.ops > k then 0 else k + 1 - st.ops;
    BudgetMonotone(e, scope, c.env, st, more, 0);
    var up := Up(st, more, 0);
    ResolvableUp(c, st, more);
    assert Ready(c, up, k, d);
    assert EndsIn(up, Evaluate(e, scope, c.env, up), v, k, puts);
    assert Follows(st, r.st);
  }

  /** The cost is exact from below too: with fewer operations the evaluation hits the limit. */
  lemma SmallerBudgetTrips(c: Ctx, e: Entity, scope: Scope, v: Value, k: nat, d: nat, puts: set<Entity>, st: State)
    requires Gives(c, e, scope, v, k, d, puts)
    requires 0 <= st.ops < k && st.depth >= d && Resolvable(c.env, c.nodes, st) && c.held <= st.store
    ensures Evaluate(e, scope, c.env, st).st.tripped
  {
    hide Evaluate, Resolvable, Gives;
    if !Evaluate(e, scope, c.env, st).st.tripped { UntrippedCost(c, e, scope, v, k, d, puts, st); }
  }

  lemma ResolvableUp(c: Ctx, st: State, more: nat)
    requires Resolvable(c.env, c.nodes, st)
    ensures Resolvable(c.env, c.nodes, Up(st, more, 0))
  {
    forall e | e in c.nodes ensures Resolve(Hash(e), c.env, Up(st, more, 0)) == Some(e) {
      assert Resolve(Hash(e), c.env, st) == Some(e);
    }
  }

  lemma ReadyLater(c: Ctx, st: State, st': State, j: nat, k: nat, d: nat, puts: set<Entity>)
    requires Ready(c, st, j + k, d) && Ran(st, st', j) && puts <= st'.store
    ensures Ready(c.(held := c.held + puts), st', k, d)
    ensures Ready(c, st', k, d)
  {
  }

  function Charged(st: State): State {
    st.(depth := st.depth - 1, ops := st.ops - 1, steps := st.steps + 1)
  }

  lemma ReadyCharged(c: Ctx, st: State, k: nat, d: nat)
    requires Ready(c, st, 1 + k, 1 + d)
    ensures Ready(c, Charged(st), k, d)
  {
  }

  /** A turn that ends in a value. */
  lemma DoneTurn(e: Entity, scope: Scope, env: Env, st: State)
    requires st.depth > 0 && st.ops > 1 && Inner(e, scope, env, Charged(st)).step.Done?
    ensures var r := Inner(e, scope, env, Charged(st));
            Evaluate(e, scope, env, st) == r.(st := r.st.(depth := r.st.depth + 1))
  {
    hide Evaluate, Trampoline, Inner, Error;
    var entered := st.(depth := st.depth - 1);
    assert entered.(ops := entered.ops - 1).(steps := entered.steps + 1) == Charged(st);
    T.Entry(e, scope, env, st);
    T.Turn(e, scope, env, entered);
  }

  lemma ValueTurn(e: Entity, scope: Scope, env: Env, st: State, v: Value, k: nat, puts: set<Entity>)
    requires st.depth > 0 && st.ops > 1 && EndsIn(Charged(st), Inner(e, scope, env, Charged(st)), v, k, puts)
    ensures EndsIn(st, Evaluate(e, scope, env, st), v, 1 + k, puts)
  {
    hide Evaluate, Inner;
    DoneTurn(e, scope, env, st);
  }

  /** A form that ends in a value costs one more operation, and one more level of depth, than its parts. */
  lemma ValueForm(c: Ctx, e: Entity, scope: Scope, v: Value, k: nat, d: nat, puts: set<Entity>)
    requires forall st | Ready(c, st, k, d) :: EndsIn(st, Inner(e, scope, c.env, st), v, k, puts)
    ensures Gives(c, e, scope, v, 1 + k, 1 + d, puts)
  {
    hide Inner, Evaluate, Resolvable, EndsIn;
    forall st | Ready(c, st, 1 + k, 1 + d) ensures EndsIn(st, Evaluate(e, scope, c.env, st), v, 1 + k, puts) {
      ReadyCharged(c, st, k, d);
      ValueTurn(e, scope, c.env, st, v, k, puts);
    }
  }

  /** A turn that ends in a tail call goes on in the same depth slot. */
  lemma TailTurn(e: Entity, scope: Scope, env: Env, st: State, next: Entity, scope': Scope, k: nat)
    requires st.depth > 0 && st.ops > 1
    requires var r := Inner(e, scope, env, Charged(st)); r.step == Tail(next, scope') && Ran(Charged(st), r.st, k)
    ensures var r := Inner(e, scope, env, Charged(st));
            var st' := r.st.(depth := st.depth);
            Evaluate(e, scope, env, st) == Evaluate(next, scope', env, st') && Ran(st, st', 1 + k)
  {
    hide Evaluate, Trampoline, Inner, Error;
    var r := Inner(e, scope, env, Charged(st));
    var entered := st.(depth := st.depth - 1);
    assert entered.(ops := entered.ops - 1).(steps := entered.steps + 1) == Charged(st);
    T.Entry(e, scope, env, st);
    T.Turn(e, scope, env, entered);
    var st' := r.st.(depth := st.depth);
    assert st'.(depth := st'.depth - 1) == r.st;
    T.Entry(next, scope', env, st');
  }

  // ---------------------------------------------------------------- tail position

  function Max(a: nat, b: nat): nat { if a > b then a else b }

  predicate TailsTo(st: State, r: Reply, next: Entity, scope: Scope, j: nat, held: set<Entity>) {
    r.step == Tail(next, scope) && Ran(st, r.st, j) && held <= r.st.store
  }

  /** A form in tail position gives what it continues with gives; its own part costs no lasting depth. */
  lemma TailForm(c: Ctx, e: Entity, scope: Scope, next: Entity, scope': Scope, j: nat, need: nat, held: set<Entity>,
                 v: Value, k: nat, d: nat, puts: set<Entity>)
    requires forall st | Ready(c, st, j, need) :: TailsTo(st, Inner(e, scope, c.env, st), next, scope', j, held)
    requires Gives(c.(held := c.held + held), next, scope', v, k, d, puts)
    ensures Gives(c, e, scope, v, 1 + j + k, Max(1 + need, d), puts)
  {
    hide Evaluate, Inner, Resolvable;
    forall st | Ready(c, st, 1 + j + k, Max(1 + need, d))
      ensures EndsIn(st, Evaluate(e, scope, c.env, st), v, 1 + j + k, puts) {
      ReadyCharged(c, st, j, need);
      GoOn(c, e, scope, st, next, scope', j, held, v, k, d, puts);
    }
  }

  lemma GoOn(c: Ctx, e: Entity, scope: Scope, st: State, next: Entity, scope': Scope, j: nat, held: set<Entity>,
             v: Value, k: nat, d: nat, puts: set<Entity>)
    requires Ready(c, st, 1 + j + k, d) && st.depth > 0
    requires TailsTo(Charged(st), Inner(e, scope, c.env, Charged(st)), next, scope', j, held)
    requires Gives(c.(held := c.held + held), next, scope', v, k, d, puts)
    ensures EndsIn(st, Evaluate(e, scope, c.env, st), v, 1 + j + k, puts)
  {
    hide Evaluate, Inner, Resolvable;
    TailTurn(e, scope, c.env, st, next, scope', j);
    var st' := Inner(e, scope, c.env, Charged(st)).st.(depth := st.depth);
    ReadyLater(c, st, st', 1 + j, k, d, held);
    assert EndsIn(st', Evaluate(next, scope', c.env, st'), v, k, puts);
  }

  // ---------------------------------------------------------------- operands

  /** A named operand: what its expression gives and costs. */
  datatype Arg = Arg(name: string, expr: Entity, value: Value, cost: nat, need: nat, puts: set<Entity>)

  /** The operand has this value, which may be an error only where it is contained. */
  ghost predicate ArgOk(c: Ctx, scope: Scope, a: Arg, contained: bool) {
    && a.expr in c.nodes && Gives(c, a.expr, scope, a.value, a.cost, a.need, a.puts)
    && (contained || (!a.expr.typ.ErrorValue? && !IsError(a.value)))
  }

  /** The operand has this value, and it is no error. */
  ghost predicate ArgGives(c: Ctx, scope: Scope, a: Arg) {
    ArgOk(c, scope, a, false)
  }

  lemma GivesIsOk(c: Ctx, scope: Scope, a: Arg, contained: bool)
    requires ArgGives(c, scope, a)
    ensures ArgOk(c, scope, a, contained)
  {
    hide Gives;
  }

  function TotalCost(args: seq<Arg>): nat {
    if args == [] then 0 else args[0].cost + TotalCost(args[1..])
  }

  function MaxNeed(args: seq<Arg>): nat {
    if args == [] then 0 else if args[0].need > MaxNeed(args[1..]) then args[0].need else MaxNeed(args[1..])
  }

  function AllPuts(args: seq<Arg>): set<Entity> {
    if args == [] then {} else args[0].puts + AllPuts(args[1..])
  }

  /** The values of the operands, bound in order. */
  function Bind(acc: Scope, args: seq<Arg>): Scope
    decreases |args|
  {
    if args == [] then acc else Bind(acc[args[0].name := args[0].value], args[1..])
  }

  predicate Matches(items: seq<Item>, args: seq<Arg>) {
    |items| == |args| &&
    forall i | 0 <= i < |items| :: items[i].Item? && items[i].name == args[i].name && items[i].ref == Hash(args[i].expr)
  }

  lemma AllOk(c: Ctx, scope: Scope, items: seq<Item>, args: seq<Arg>)
    requires Matches(items, args) && forall i | 0 <= i < |args| :: ArgGives(c, scope, args[i])
    ensures |items| == |args|
    ensures forall i | 0 <= i < |args| :: items[i].Item? && ArgOk(c, scope, args[i], items[i].contained)
  {
    hide ArgOk;
    forall i | 0 <= i < |args| ensures items[i].Item? && ArgOk(c, scope, args[i], items[i].contained) {
      assert items[i].Item?;
      GivesIsOk(c, scope, args[i], items[i].contained);
    }
  }

  lemma OperandRule(c: Ctx, missing: string, contained: bool, scope: Scope, st: State, a: Arg)
    requires ArgOk(c, scope, a, contained) && Ready(c, st, a.cost, a.need)
    ensures var r := EvalOperand(Hash(a.expr), missing, contained, scope, c.env, st);
            r.out == Got(a.value) && Ran(st, r.st, a.cost) && a.puts <= r.st.store
  {
    hide Evaluate, Error, IsError, Resolve;
    assert EndsIn(st, Evaluate(a.expr, scope, c.env, st), a.value, a.cost, a.puts);
  }

  lemma {:induction false} OperandsRule(c: Ctx, items: seq<Item>, args: seq<Arg>, acc: Scope, scope: Scope, st: State)
    requires Matches(items, args) && (forall i | 0 <= i < |args| :: ArgOk(c, scope, args[i], items[i].contained))
    requires Ready(c, st, TotalCost(args), MaxNeed(args))
    ensures var r := EvalOperands(items, false, acc, scope, c.env, st);
            r.out == All(Bind(acc, args)) && Ran(st, r.st, TotalCost(args)) && AllPuts(args) <= r.st.store
    decreases |items|
  {
    hide EvalOperand, ArgOk, Resolvable;
    if items != [] {
      var a := args[0];
      OperandRule(c, items[0].missing, items[0].contained, scope, st, a);
      var r := EvalOperand(Hash(a.expr), items[0].missing, items[0].contained, scope, c.env, st);
      ReadyLater(c, st, r.st, a.cost, TotalCost(args[1..]), MaxNeed(args), {});
      OperandsRule(c, items[1..], args[1..], acc[a.name := a.value], scope, r.st);
    }
  }

  // ---------------------------------------------------------------- leaves

  function Lit(v: Value): Entity { Entity(Literal, Rec(map["value" := v])) }
  function Var(x: string): Entity { Entity(LookupScope, Rec(map["name" := Str(x)])) }

  lemma LiteralRule(c: Ctx, scope: Scope, v: Value)
    ensures Gives(c, Lit(v), scope, v, 1, 1, {})
  {
    hide Gives;
    assert Get(Lit(v).data, "value") == v;
    ValueForm(c, Lit(v), scope, v, 0, 0, {});
  }

  lemma VarRule(c: Ctx, scope: Scope, x: string)
    requires x in scope
    ensures Gives(c, Var(x), scope, scope[x], 1, 1, {})
  {
    hide Gives, Error;
    assert GetOr(Var(x).data, "name", Str("")) == Str(x);
    ValueForm(c, Var(x), scope, scope[x], 0, 0, {});
  }

  // ---------------------------------------------------------------- strict forms

  /** A strict form evaluates its operands in order and combines their values. */
  lemma StrictRule(c: Ctx, scope: Scope, e: Entity, items: seq<Item>, args: seq<Arg>, v: Value)
    requires IsStrict(e.typ) && e.data.Rec? && StrictItems(e) == Some(items) && Matches(items, args)
    requires forall i | 0 <= i < |args| :: ArgGives(c, scope, args[i])
    requires Combine(e, Bind(map[], args)) == Done(v)
    ensures Gives(c, e, scope, v, 1 + TotalCost(args), 1 + MaxNeed(args), AllPuts(args))
  {
    hide Evaluate, Inner, ArgGives, Ready, EndsIn, Combine, StrictItems, Gives, Matches, TotalCost, MaxNeed, AllPuts,
         Bind, ArgOk;
    AllOk(c, scope, items, args);
    forall st | Ready(c, st, TotalCost(args), MaxNeed(args))
      ensures EndsIn(st, Inner(e, scope, c.env, st), v, TotalCost(args), AllPuts(args))
    {
      OperandsRule(c, items, args, map[], scope, st);
      StrictSteps(c, scope, e, items, args, v, st);
    }
    ValueForm(c, e, scope, v, TotalCost(args), MaxNeed(args), AllPuts(args));
  }

  lemma StrictSteps(c: Ctx, scope: Scope, e: Entity, items: seq<Item>, args: seq<Arg>, v: Value, st: State)
    requires IsStrict(e.typ) && e.data.Rec? && StrictItems(e) == Some(items) && Combine(e, Bind(map[], args)) == Done(v)
    requires var r := EvalOperands(items, false, map[], scope, c.env, st);
             r.out == All(Bind(map[], args)) && Ran(st, r.st, TotalCost(args)) && AllPuts(args) <= r.st.store
    ensures EndsIn(st, Inner(e, scope, c.env, st), v, TotalCost(args), AllPuts(args))
  {
    hide EvalOperands, Combine, StrictItems, TotalCost, AllPuts, Bind, Inner, EvalStrict, Ran;
    InnerStrict(e, scope, c.env, st);
    var r := EvalOperands(items, false, map[], scope, c.env, st);
    StrictCombines(e, scope, c.env, st, items, Bind(map[], args), r.st);
  }

  lemma InnerStrict(e: Entity, scope: Scope, env: Env, st: State)
    requires IsStrict(e.typ) && e.data.Rec?
    ensures Inner(e, scope, env, st) == EvalStrict(e, scope, env, st)
  {
    hide EvalStrict, EvalApply, EvalIf, EvalLet, EvalLambda, EvalIndex, EvalLookupScope, EvalLookupTree,
         EvalLookupHash, Error, Keeps;
  }

  lemma StrictCombines(e: Entity, scope: Scope, env: Env, st: State, items: seq<Item>, values: Scope, st': State)
    requires StrictItems(e) == Some(items)
    requires EvalOperands(items, false, map[], scope, env, st) == OperandsReply(All(values), st')
    ensures EvalStrict(e, scope, env, st) == Reply(Combine(e, values), st')
  {
    hide EvalOperands, Combine, StrictItems, Keeps;
  }

  function Binary(t: Type, op: string, left: Entity, right: Entity): Entity {
    Entity(t, Rec(map["op" := Str(op), "left" := Hash(left), "right" := Hash(right)]))
  }

  predicate IsBinary(t: Type, op: string) {
    t.Arithmetic? || t.Compare? || (t.Logic? && op != "not")
  }

  /** The value of a binary form. */
  function BinaryValue(t: Type, op: string, a: Value, b: Value, aUint: bool, bUint: bool): Value {
    if t.Arithmetic? then ApplyArithmetic(Str(op), a, b, aUint, bUint)
    else if t.Compare? then ApplyCompare(Str(op), a, b, aUint, bUint)
    else if op == "and" then Bool(Truthy(a) && Truthy(b))
    else if op == "or" then Bool(Truthy(a) || Truthy(b))
    else Error(INVALID_EXPRESSION, "unknown logic op")
  }

  function LeftRight(l: Arg, r: Arg): seq<Arg> { [l.(name := "left"), r.(name := "right")] }

  lemma TwoArgs(l: Arg, r: Arg)
    ensures var args := [l, r];
            && TotalCost(args) == l.cost + r.cost && AllPuts(args) == l.puts + r.puts
            && MaxNeed(args) == (if l.need > r.need then l.need else r.need)
            && forall acc :: Bind(acc, args) == acc[l.name := l.value][r.name := r.value]
  {
    assert [l, r][1..] == [r] && [r][1..] == [];
    assert TotalCost([]) == 0 && MaxNeed([]) == 0 && AllPuts([]) == {};
    assert TotalCost([r]) == r.cost && MaxNeed([r]) == r.need && AllPuts([r]) == r.puts + {};
    forall acc ensures Bind(acc, [l, r]) == acc[l.name := l.value][r.name := r.value] {
      assert Bind(acc, [l, r]) == Bind(acc[l.name := l.value], [r]);
      assert Bind(acc[l.name := l.value], [r]) == Bind(acc[l.name := l.value][r.name := r.value], []);
    }
  }

  lemma BinaryItems(t: Type, op: string, l: Arg, r: Arg)
    requires IsBinary(t, op)
    ensures var e := Binary(t, op, l.expr, r.expr);
            && StrictItems(e) == Some([Required(e, "left"), Required(e, "right")])
            && Matches([Required(e, "left"), Required(e, "right")], LeftRight(l, r))
  {
    var e := Binary(t, op, l.expr, r.expr);
    assert Get(e.data, "left") == Hash(l.expr) && Get(e.data, "right") == Hash(r.expr);
    assert GetOr(e.data, "op", Str("")) == Str(op);
  }

  lemma BinaryCombines(t: Type, op: string, l: Arg, r: Arg)
    requires IsBinary(t, op)
    ensures var e := Binary(t, op, l.expr, r.expr);
            Combine(e, map["left" := l.value, "right" := r.value]) ==
            Done(BinaryValue(t, op, l.value, r.value, IsUintCast(Hash(l.expr)), IsUintCast(Hash(r.expr))))
  {
    hide ApplyArithmetic, ApplyCompare, Error, IsUintCast, TypeNamed;
    var e := Binary(t, op, l.expr, r.expr);
    var values := map["left" := l.value, "right" := r.value];
    assert Get(e.data, "left") == Hash(l.expr) && Get(e.data, "right") == Hash(r.expr);
    assert GetOr(e.data, "op", Str("")) == Str(op);
    assert Get(Rec(values), "left") == l.value && Get(Rec(values), "right") == r.value;
  }

  lemma BinaryRule(c: Ctx, scope: Scope, t: Type, op: string, l: Arg, r: Arg)
    requires IsBinary(t, op) && ArgGives(c, scope, l) && ArgGives(c, scope, r)
    ensures Gives(c, Binary(t, op, l.expr, r.expr), scope,
                  BinaryValue(t, op, l.value, r.value, IsUintCast(Hash(l.expr)), IsUintCast(Hash(r.expr))),
                  1 + l.cost + r.cost, 1 + Max(l.need, r.need), l.puts + r.puts)
  {
    hide Evaluate, EvalOperands, ArgGives, Resolvable, BinaryValue, IsUintCast, Combine, StrictItems, Gives;
    var e, args := Binary(t, op, l.expr, r.expr), LeftRight(l, r);
    var v := BinaryValue(t, op, l.value, r.value, IsUintCast(Hash(l.expr)), IsUintCast(Hash(r.expr)));
    var items := [Required(e, "left"), Required(e, "right")];
    TwoArgs(args[0], args[1]);
    assert [args[0], args[1]] == args;
    BinaryItems(t, op, l, r);
    BinaryCombines(t, op, l, r);
    assert map[]["left" := l.value]["right" := r.value] == map["left" := l.value, "right" := r.value];
    forall i | 0 <= i < |args| ensures ArgGives(c, scope, args[i]) { Renamed(c, scope, l, r); }
    StrictRule(c, scope, e, items, args, v);
  }

  lemma Renamed(c: Ctx, scope: Scope, l: Arg, r: Arg)
    requires ArgGives(c, scope, l) && ArgGives(c, scope, r)
    ensures ArgGives(c, scope, LeftRight(l, r)[0]) && ArgGives(c, scope, LeftRight(l, r)[1])
  {
    hide Gives;
  }

  function LengthOf(xs: Entity): Entity { Entity(Length, Rec(map["array" := Hash(xs)])) }

  function IndexOf(xs: Entity, index: Entity): Entity {
    Entity(Index, Rec(map["array" := Hash(xs), "index" := Hash(index)]))
  }

  lemma OneArg(a: Arg)
    ensures TotalCost([a]) == a.cost && MaxNeed([a]) == a.need && AllPuts([a]) == a.puts
    ensures Bind(map[], [a]) == map[a.name := a.value]
  {
    assert [a][1..] == [] && TotalCost([]) == 0 && MaxNeed([]) == 0 && AllPuts([]) == {};
    assert AllPuts([a]) == a.puts + {} == a.puts;
    assert Bind(map[], [a]) == Bind(map[][a.name := a.value], []);
  }

  lemma LengthRule(c: Ctx, scope: Scope, a: Arg)
    requires ArgGives(c, scope, a) && a.value.Arr? && a.name == "array"
    ensures Gives(c, LengthOf(a.expr), scope, Int(|a.value.elems|), 1 + a.cost, 1 + a.need, a.puts)
  {
    hide Gives, ArgGives, ApplyArithmetic, ApplyCompare, ApplyNumericCast, Error, TypeNamed, TotalCost, MaxNeed,
         AllPuts, Bind, ReadField;
    var e := LengthOf(a.expr);
    assert Get(e.data, "array") == Hash(a.expr);
    OneArg(a);
    assert Get(Rec(map["array" := a.value]), "array") == a.value;
    StrictRule(c, scope, e, [Required(e, "array")], [a], Int(|a.value.elems|));
  }

  /** The element at a position, or an error that says the position is outside. */
  function ElementAt(xs: seq<Value>, i: int): Value {
    if 0 <= i < |xs| then xs[i] else Error(INDEX_OUT_OF_RANGE, "index out of range")
  }

  /** `index` gives the element at the position. */
  lemma IndexRule(c: Ctx, scope: Scope, a: Arg, i: Arg)
    requires ArgGives(c, scope, a) && ArgGives(c, scope, i) && a.value.Arr? && i.value.Int?
    ensures Gives(c, IndexOf(a.expr, i.expr), scope, ElementAt(a.value.elems, i.value.i),
                  1 + a.cost + i.cost, 1 + Max(a.need, i.need), a.puts + i.puts)
  {
    hide Gives, ArgGives, Inner, ElementAt, Ready, EndsIn, IndexOf;
    var v := ElementAt(a.value.elems, i.value.i);
    forall st | Ready(c, st, a.cost + i.cost, Max(a.need, i.need))
      ensures EndsIn(st, Inner(IndexOf(a.expr, i.expr), scope, c.env, st), v, a.cost + i.cost, a.puts + i.puts)
    {
      IndexInner(c, scope, a, i, st);
    }
    ValueForm(c, IndexOf(a.expr, i.expr), scope, v, a.cost + i.cost, Max(a.need, i.need), a.puts + i.puts);
  }

  lemma IndexInner(c: Ctx, scope: Scope, a: Arg, i: Arg, st: State)
    requires ArgGives(c, scope, a) && ArgGives(c, scope, i) && a.value.Arr? && i.value.Int?
    requires Ready(c, st, a.cost + i.cost, Max(a.need, i.need))
    ensures EndsIn(st, Inner(IndexOf(a.expr, i.expr), scope, c.env, st), ElementAt(a.value.elems, i.value.i),
                   a.cost + i.cost, a.puts + i.puts)
  {
    hide Gives, ArgOk, Inner, EvalOperand, ElementAt, Resolvable, IndexOf;
    OperandRule(c, INVALID_EXPRESSION, false, scope, st, a);
    var r := EvalOperand(Hash(a.expr), INVALID_EXPRESSION, false, scope, c.env, st);
    ReadyLater(c, st, r.st, a.cost, i.cost, i.need, {});
    OperandRule(c, INVALID_EXPRESSION, false, scope, r.st, i);
    var r' := EvalOperand(Hash(i.expr), INVALID_EXPRESSION, false, scope, c.env, r.st);
    IndexSteps(a.expr, i.expr, scope, c.env, st, a.value, r.st, i.value, r'.st);
  }

  lemma IndexSteps(xs: Entity, at: Entity, scope: Scope, env: Env, st: State, a: Value, st1: State, i: Value,
      st2: State)
    requires a.Arr? && i.Int?
    requires EvalOperand(Hash(xs), INVALID_EXPRESSION, false, scope, env, st) == OperandReply(Got(a), st1)
    requires EvalOperand(Hash(at), INVALID_EXPRESSION, false, scope, env, st1) == OperandReply(Got(i), st2)
    ensures Inner(IndexOf(xs, at), scope, env, st) == Reply(Done(ElementAt(a.elems, i.i)), st2)
  {
    hide EvalOperand, Error, Keeps;
    var e := IndexOf(xs, at);
    assert Get(e.data, "array") == Hash(xs) && Get(e.data, "index") == Hash(at);
    assert Inner(e, scope, env, st) == EvalIndex(e, scope, env, st);
  }

  function NotOf(x: Entity): Entity { Entity(Logic, Rec(map["op" := Str("not"), "left" := Hash(x)])) }

  function CastOf(toType: string, x: Entity): Entity {
    Entity(NumericCast, Rec(map["to_type" := Str(toType), "value" := Hash(x)]))
  }

  lemma NotRule(c: Ctx, scope: Scope, a: Arg)
    requires ArgGives(c, scope, a) && a.name == "left"
    ensures Gives(c, NotOf(a.expr), scope, Bool(!Truthy(a.value)), 1 + a.cost, 1 + a.need, a.puts)
  {
    hide Gives, ArgGives, ApplyArithmetic, ApplyCompare, ApplyNumericCast, Error, TypeNamed, TotalCost, MaxNeed,
         AllPuts, Bind, ReadField, Truthy;
    var e := NotOf(a.expr);
    assert Get(e.data, "left") == Hash(a.expr) && GetOr(e.data, "op", Str("")) == Str("not");
    OneArg(a);
    assert Get(Rec(map["left" := a.value]), "left") == a.value;
    StrictRule(c, scope, e, [Required(e, "left")], [a], Bool(!Truthy(a.value)));
  }

  lemma CastRule(c: Ctx, scope: Scope, toType: string, a: Arg)
    requires ArgGives(c, scope, a) && a.name == "value"
    ensures Gives(c, CastOf(toType, a.expr), scope, ApplyNumericCast(Str(toType), a.value), 1 + a.cost, 1 + a.need,
      a.puts)
  {
    hide Gives, ArgGives, ApplyArithmetic, ApplyCompare, ApplyNumericCast, Error, TypeNamed, TotalCost, MaxNeed,
         AllPuts, Bind, ReadField;
    var e := CastOf(toType, a.expr);
    assert Get(e.data, "value") == Hash(a.expr) && Get(e.data, "to_type") == Str(toType);
    OneArg(a);
    assert Get(Rec(map["value" := a.value]), "value") == a.value;
    StrictRule(c, scope, e, [Required(e, "value")], [a], ApplyNumericCast(Str(toType), a.value));
  }

  // ---------------------------------------------------------------- errors

  /** An operand whose expression gives an error. */
  ghost predicate ArgFails(c: Ctx, scope: Scope, a: Arg) {
    && a.expr in c.nodes && !a.expr.typ.ErrorValue? && IsError(a.value)
    && Gives(c, a.expr, scope, a.value, a.cost, a.need, a.puts)
  }

  lemma OperandFails(c: Ctx, missing: string, scope: Scope, st: State, a: Arg)
    requires ArgFails(c, scope, a) && Ready(c, st, a.cost, a.need)
    ensures var r := EvalOperand(Hash(a.expr), missing, false, scope, c.env, st);
            r.out == Stop(Done(a.value)) && Ran(st, r.st, a.cost) && a.puts <= r.st.store
  {
    hide Evaluate, Error, IsError, Resolve;
    assert EndsIn(st, Evaluate(a.expr, scope, c.env, st), a.value, a.cost, a.puts);
  }

  /** The operands up to and including the first that fails, `items[|good|]`. */
  predicate FailsAfter(items: seq<Item>, good: seq<Arg>, bad: Arg) {
    && |good| < |items| && Matches(items[..|good|], good)
    && (forall i | 0 <= i <= |good| :: items[i].Item?)
    && items[|good|].ref == Hash(bad.expr) && !items[|good|].contained
  }

  lemma {:induction false} OperandsFail(c: Ctx, items: seq<Item>, good: seq<Arg>, bad: Arg, acc: Scope, scope: Scope,
      st: State)
    requires FailsAfter(items, good, bad) && ArgFails(c, scope, bad)
    requires forall i | 0 <= i < |good| :: ArgOk(c, scope, good[i], items[i].contained)
    requires Ready(c, st, TotalCost(good) + bad.cost, Max(MaxNeed(good), bad.need))
    ensures var r := EvalOperands(items, false, acc, scope, c.env, st);
            r.out == Early(Done(bad.value)) && Ran(st, r.st, TotalCost(good) + bad.cost)
    decreases |items|
  {
    hide EvalOperand, ArgOk, ArgFails, Resolvable;
    if good == [] {
      OperandFails(c, items[0].missing, scope, st, bad);
    } else {
      var a := good[0];
      assert items[..|good|][0] == items[0];
      OperandRule(c, items[0].missing, items[0].contained, scope, st, a);
      var r := EvalOperand(Hash(a.expr), items[0].missing, items[0].contained, scope, c.env, st);
      ReadyLater(c, st, r.st, a.cost, TotalCost(good[1..]) + bad.cost, Max(MaxNeed(good), bad.need), {});
      FailsAfterRest(items, good, bad);
      OperandsFail(c, items[1..], good[1..], bad, acc[a.name := a.value], scope, r.st);
    }
  }

  lemma GoodOk(c: Ctx, scope: Scope, items: seq<Item>, good: seq<Arg>, bad: Arg)
    requires FailsAfter(items, good, bad) && forall i | 0 <= i < |good| :: ArgGives(c, scope, good[i])
    ensures |good| < |items|
    ensures forall i | 0 <= i < |good| :: items[i].Item? && ArgOk(c, scope, good[i], items[i].contained)
  {
    hide ArgOk, Matches;
    forall i | 0 <= i < |good| ensures items[i].Item? && ArgOk(c, scope, good[i], items[i].contained) {
      GivesIsOk(c, scope, good[i], items[i].contained);
    }
  }

  lemma FailsAfterRest(items: seq<Item>, good: seq<Arg>, bad: Arg)
    requires FailsAfter(items, good, bad) && good != []
    ensures FailsAfter(items[1..], good[1..], bad)
  {
    assert items[1..][..|good| - 1] == items[..|good|][1..];
    assert forall i | 0 <= i <= |good| - 1 :: items[1..][i] == items[i + 1];
  }

  /**
   The first error wins: a strict form whose operands give values up to one that gives an error gives
   that very error, and the operands after it are neither evaluated nor paid for.
   */
  lemma FirstErrorWins(c: Ctx, scope: Scope, e: Entity, items: seq<Item>, good: seq<Arg>, bad: Arg)
    requires IsStrict(e.typ) && e.data.Rec? && StrictItems(e) == Some(items) && FailsAfter(items, good, bad)
    requires (forall i | 0 <= i < |good| :: ArgGives(c, scope, good[i])) && ArgFails(c, scope, bad)
    ensures Gives(c, e, scope, bad.value, 1 + TotalCost(good) + bad.cost, 1 + Max(MaxNeed(good), bad.need), {})
  {
    hide Evaluate, Inner, ArgGives, ArgFails, ArgOk, Ready, StrictItems, Gives, TotalCost, MaxNeed, FailsAfter;
    GoodOk(c, scope, items, good, bad);
    var k, d := TotalCost(good) + bad.cost, Max(MaxNeed(good), bad.need);
    forall st | Ready(c, st, k, d) ensures EndsIn(st, Inner(e, scope, c.env, st), bad.value, k, {}) {
      OperandsFail(c, items, good, bad, map[], scope, st);
      InnerStrict(e, scope, c.env, st);
      StrictStops(e, scope, c.env, st, items, Done(bad.value), EvalOperands(items, false, map[], scope, c.env, st).st);
    }
    ValueForm(c, e, scope, bad.value, k, d, {});
  }

  lemma StrictStops(e: Entity, scope: Scope, env: Env, st: State, items: seq<Item>, step: Step, st': State)
    requires StrictItems(e) == Some(items)
    requires EvalOperands(items, false, map[], scope, env, st) == OperandsReply(Early(step), st')
    ensures EvalStrict(e, scope, env, st) == Reply(step, st')
  {
    hide EvalOperands, Combine, StrictItems, Keeps;
  }

  // ---------------------------------------------------------------- if and let

  function IfThenElse(cond: Entity, yes: Entity, no: Entity): Entity {
    Entity(If, Rec(map["condition" := Hash(cond), "then" := Hash(yes), "else" := Hash(no)]))
  }

  lemma TailToNode(c: Ctx, e: Entity, scope: Scope, st: State)
    requires e in c.nodes && !e.typ.ErrorValue? && Resolvable(c.env, c.nodes, st)
    ensures TailTo(Hash(e), scope, c.env, st) == Reply(Tail(e, scope), st)
  {
    hide Resolve, Error;
  }

  /** An `if` gives what the branch its condition selects gives; the other branch is not evaluated. */
  lemma IfRule(c: Ctx, scope: Scope, cond: Arg, yes: Entity, no: Entity, v: Value, k: nat, d: nat, puts: set<Entity>)
    requires ArgGives(c, scope, cond)
    requires var taken := if Truthy(cond.value) then yes else no;
             && taken in c.nodes && !taken.typ.ErrorValue?
             && Gives(c.(held := c.held + cond.puts), taken, scope, v, k, d, puts)
    ensures Gives(c, IfThenElse(cond.expr, yes, no), scope, v, 1 + cond.cost + k, Max(1 + cond.need, d), puts)
  {
    hide Inner, ArgGives, Ready, TailsTo, Truthy, IfThenElse, Gives;
    var taken := if Truthy(cond.value) then yes else no;
    forall st | Ready(c, st, cond.cost, cond.need)
      ensures TailsTo(st, Inner(IfThenElse(cond.expr, yes, no), scope, c.env, st), taken, scope, cond.cost, cond.puts)
    {
      IfInner(c, scope, cond, yes, no, st);
    }
    TailForm(c, IfThenElse(cond.expr, yes, no), scope, taken, scope, cond.cost, cond.need, cond.puts, v, k, d, puts);
  }

  lemma IfInner(c: Ctx, scope: Scope, cond: Arg, yes: Entity, no: Entity, st: State)
    requires ArgGives(c, scope, cond) && Ready(c, st, cond.cost, cond.need)
    requires var taken := if Truthy(cond.value) then yes else no; taken in c.nodes && !taken.typ.ErrorValue?
    ensures var taken := if Truthy(cond.value) then yes else no;
            TailsTo(st, Inner(IfThenElse(cond.expr, yes, no), scope, c.env, st), taken, scope, cond.cost, cond.puts)
  {
    hide Evaluate, EvalOperand, ArgOk, Resolvable, Error, Truthy, TailTo;
    var e := IfThenElse(cond.expr, yes, no);
    var taken := if Truthy(cond.value) then yes else no;
    assert Get(e.data, "condition") == Hash(cond.expr) && Get(e.data, "then") == Hash(yes)
      && Get(e.data, "else") == Hash(no);
    OperandRule(c, INVALID_EXPRESSION, false, scope, st, cond);
    var r := EvalOperand(Hash(cond.expr), INVALID_EXPRESSION, false, scope, c.env, st);
    ReadyLater(c, st, r.st, cond.cost, 0, 0, cond.puts);
    TailToNode(c, taken, scope, r.st);
    assert Inner(e, scope, c.env, st) == EvalIf(e, scope, c.env, st);
  }

  function LetBinding(b: Arg): Value {
    Rec(map["name" := Str(b.name), "value" := Hash(b.expr)])
  }

  function LetBindings(bs: seq<Arg>): seq<Value> {
    if bs == [] then [] else [LetBinding(bs[0])] + LetBindings(bs[1..])
  }

  function LetIn(bs: seq<Arg>, body: Entity): Entity {
    Entity(Let, Rec(map["bindings" := Arr(LetBindings(bs)), "body" := Hash(body)]))
  }

  /** Every binding gives its value in the scope the earlier ones have built. */
  ghost predicate LetGives(c: Ctx, scope: Scope, bs: seq<Arg>)
    decreases |bs|
  {
    bs == [] || (ArgGives(c, scope, bs[0]) &&
                 LetGives(c.(held := c.held + bs[0].puts), scope[bs[0].name := bs[0].value], bs[1..]))
  }

  lemma LetItemIs(b: Arg)
    ensures LetItem(LetBinding(b)) == Item(b.name, Hash(b.expr), INVALID_EXPRESSION, false)
  {
    assert Get(LetBinding(b), "name") == Str(b.name) && Get(LetBinding(b), "value") == Hash(b.expr);
  }

  lemma {:induction false} LetOperands(c: Ctx, bs: seq<Arg>, acc: Scope, scope: Scope, st: State)
    requires LetGives(c, acc, bs) && Ready(c, st, TotalCost(bs), MaxNeed(bs))
    ensures var r := EvalOperands(LetItems(LetBindings(bs)), true, acc, scope, c.env, st);
            r.out == All(Bind(acc, bs)) && Ran(st, r.st, TotalCost(bs)) && AllPuts(bs) <= r.st.store
    decreases |bs|
  {
    hide EvalOperand, ArgOk, Resolvable, LetItem, LetBinding;
    if bs != [] {
      var b := bs[0];
      LetItemIs(b);
      OperandRule(c, INVALID_EXPRESSION, false, acc, st, b);
      var r := EvalOperand(Hash(b.expr), INVALID_EXPRESSION, false, acc, c.env, st);
      ReadyLater(c, st, r.st, b.cost, TotalCost(bs[1..]), MaxNeed(bs), b.puts);
      assert LetBindings(bs)[1..] == LetBindings(bs[1..]);
      LetOperands(c.(held := c.held + b.puts), bs[1..], acc[b.name := b.value], scope, r.st);
    }
  }

  /** A `let` evaluates its bindings in order, each in sight of the earlier ones, then its body. */
  lemma LetRule(c: Ctx, scope: Scope, bs: seq<Arg>, body: Entity, v: Value, k: nat, d: nat, puts: set<Entity>)
    requires LetGives(c, scope, bs) && body in c.nodes && !body.typ.ErrorValue?
    requires Gives(c.(held := c.held + AllPuts(bs)), body, Bind(scope, bs), v, k, d, puts)
    ensures Gives(c, LetIn(bs, body), scope, v, 1 + TotalCost(bs) + k, Max(1 + MaxNeed(bs), d), puts)
  {
    hide Inner, LetGives, Ready, TailsTo, LetIn, Gives, TotalCost, MaxNeed, AllPuts, Bind;
    forall st | Ready(c, st, TotalCost(bs), MaxNeed(bs))
      ensures TailsTo(st, Inner(LetIn(bs, body), scope, c.env, st), body, Bind(scope, bs), TotalCost(bs), AllPuts(bs))
    {
      LetInner(c, scope, bs, body, st);
    }
    TailForm(c, LetIn(bs, body), scope, body, Bind(scope, bs), TotalCost(bs), MaxNeed(bs), AllPuts(bs), v, k, d, puts);
  }

  lemma LetInner(c: Ctx, scope: Scope, bs: seq<Arg>, body: Entity, st: State)
    requires LetGives(c, scope, bs) && body in c.nodes && !body.typ.ErrorValue?
      && Ready(c, st, TotalCost(bs), MaxNeed(bs))
    ensures TailsTo(st, Inner(LetIn(bs, body), scope, c.env, st), body, Bind(scope, bs), TotalCost(bs), AllPuts(bs))
  {
    hide Evaluate, EvalOperands, Resolvable, Error, LetGives, LetBindings, LetItems, TailTo, TotalCost, MaxNeed,
         AllPuts, Bind;
    var e := LetIn(bs, body);
    assert GetOr(e.data, "bindings", Arr([])) == Arr(LetBindings(bs)) && Get(e.data, "body") == Hash(body);
    LetOperands(c, bs, scope, scope, st);
    var r := EvalOperands(LetItems(LetBindings(bs)), true, scope, scope, c.env, st);
    ReadyLater(c, st, r.st, TotalCost(bs), 0, 0, {});
    TailToNode(c, body, Bind(scope, bs), r.st);
    assert Inner(e, scope, c.env, st) == EvalLet(e, scope, c.env, st);
  }

  // ---------------------------------------------------------------- closures

  function Strs(ps: seq<string>): seq<Value> {
    if ps == [] then [] else [Str(ps[0])] + Strs(ps[1..])
  }

  function Lam(ps: seq<string>, body: Entity): Entity {
    Entity(Lambda, Rec(map["params" := Arr(Strs(ps)), "body" := Hash(body)]))
  }

  /** The closure a lambda makes in a scope. */
  function ClosureOf(ps: seq<string>, body: Entity, s: Scope): Value {
    Ent(MakeClosure(Lam(ps, body), s))
  }

  lemma LambdaRule(c: Ctx, scope: Scope, ps: seq<string>, body: Entity)
    requires !CaptureRaises(scope)
    ensures Gives(c, Lam(ps, body), scope, ClosureOf(ps, body, scope), 1, 1, CapturePuts(scope))
    ensures !IsError(ClosureOf(ps, body, scope))
  {
    hide Evaluate, MakeClosure, CapturePuts, CaptureMarks, CaptureRaises;
    var e := Lam(ps, body);
    ValueForm(c, e, scope, ClosureOf(ps, body, scope), 0, 0, CapturePuts(scope)) by {
      hide Gives;
      assert e.typ.Lambda?;
    }
    assert MakeClosure(e, scope).typ == Closure by { ClosureType(e, scope); }
  }

  lemma ClosureType(e: Entity, scope: Scope)
    ensures MakeClosure(e, scope).typ == Closure
  {
  }

  lemma {:induction false} StrsNames(ps: seq<string>)
    ensures AllStrings(Strs(ps)) && Names(Strs(ps)) == ps
  {
    if ps != [] {
      StrsNames(ps[1..]);
      assert Strs(ps)[1..] == Strs(ps[1..]);
      assert ps == [ps[0]] + ps[1..];
    }
  }

  /** Opening a closure gives its parameters, its body and the materialized scope it was made in. */
  lemma OpenRule(env: Env, st: State, ps: seq<string>, body: Entity, s: Scope)
    requires CaptureMarks(s) <= st.store
    ensures var o := OpenClosure(ClosureOf(ps, body, s), env, st);
            && o.Open? && o.scope == MaterializedScope(s) && Ran(st, o.st, 0)
            && ParamNames(o.data) == Some(ps) && Get(o.data, "body") == Hash(body)
  {
    hide LoadScope, CaptureHash, CaptureMarks, Error;
    if s != map[] { StoredIsMarked(s); }
    LoadOfCapture(s, st.store, env.included);
    StrsNames(ps);
    var lam := Lam(ps, body);
    assert GetOr(lam.data, "params", Arr([])) == Arr(Strs(ps)) && Get(lam.data, "body") == Hash(body);
    var data := MakeClosure(lam, s).data;
    assert Get(data, "env") == CaptureHash(s) && Get(data, "body") == Hash(body);
    assert GetOr(data, "params", Arr([])) == Arr(Strs(ps));
  }

  function CallOf(fn: Entity, args: map<string, Value>): Entity {
    Entity(Apply, Rec(map["fn" := Hash(fn), "args" := Rec(args)]))
  }

  /** The argument record holds the expression of every argument under its name. */
  predicate Supplies(rec: map<string, Value>, args: seq<Arg>) {
    forall i | 0 <= i < |args| :: args[i].name in rec && rec[args[i].name] == Hash(args[i].expr)
  }

  predicate NamesMatch(ps: seq<string>, args: seq<Arg>) {
    |ps| == |args| && forall i | 0 <= i < |ps| :: ps[i] == args[i].name
  }

  lemma {:induction false} ParamItemsMatch(ps: seq<string>, rec: map<string, Value>, args: seq<Arg>)
    requires NamesMatch(ps, args) && Supplies(rec, args)
    ensures Matches(ParamItems(ps, rec), args)
  {
    if ps != [] {
      ParamItemsMatch(ps[1..], rec, args[1..]);
    }
  }

  lemma CallInner(c: Ctx, scope: Scope, fn: Arg, ps: seq<string>, body: Entity, s: Scope, args: seq<Arg>,
      rec: map<string, Value>, st: State)
    requires ArgGives(c, scope, fn) && fn.value == ClosureOf(ps, body, s) && CaptureMarks(s) <= c.held + fn.puts
    requires NamesMatch(ps, args) && Supplies(rec, args) && body in c.nodes && !body.typ.ErrorValue?
    requires forall i | 0 <= i < |args| :: ArgGives(c.(held := c.held + fn.puts), scope, args[i])
    requires Ready(c, st, fn.cost + TotalCost(args), Max(fn.need, MaxNeed(args)))
    ensures var r := Inner(CallOf(fn.expr, rec), scope, c.env, st);
            && r.step == Tail(body, Bind(MaterializedScope(s), args)) && Ran(st, r.st, fn.cost + TotalCost(args))
            && fn.puts + AllPuts(args) <= r.st.store
  {
    hide Evaluate, EvalOperand, EvalOperands, ArgOk, Resolvable, Error, OpenClosure, ParamNames, ClosureOf,
         CaptureMarks, MaterializedScope, ParamItems, Inner, CallOf;
    var c1 := c.(held := c.held + fn.puts);
    OperandRule(c, INVALID_EXPRESSION, false, scope, st, fn);
    var f := EvalOperand(Hash(fn.expr), INVALID_EXPRESSION, false, scope, c.env, st);
    ReadyLater(c, st, f.st, fn.cost, TotalCost(args), MaxNeed(args), fn.puts);
    OpenRule(c.env, f.st, ps, body, s);
    var o := OpenClosure(fn.value, c.env, f.st);
    ReadyLater(c1, f.st, o.st, 0, TotalCost(args), MaxNeed(args), {});
    ParamItemsMatch(ps, rec, args);
    AllOk(c1, scope, ParamItems(ps, rec), args);
    OperandsRule(c1, ParamItems(ps, rec), args, MaterializedScope(s), scope, o.st);
    var vs := EvalOperands(ParamItems(ps, rec), false, MaterializedScope(s), scope, c.env, o.st);
    ReadyLater(c1, o.st, vs.st, TotalCost(args), 0, 0, {});
    TailToNode(c, body, Bind(MaterializedScope(s), args), vs.st);
    CallSteps(fn.expr, rec, scope, c.env, st, fn.value, f.st, o, ps, Bind(MaterializedScope(s), args), vs.st, body);
  }

  /** The steps of a call, once each is known. */
  lemma CallSteps(fn: Entity, rec: map<string, Value>, scope: Scope, env: Env, st: State,
                  closure: Value, st1: State, o: Opened, ps: seq<string>, inner: Scope, st2: State, body: Entity)
    requires EvalOperand(Hash(fn), INVALID_EXPRESSION, false, scope, env, st) == OperandReply(Got(closure), st1)
    requires OpenClosure(closure, env, st1) == o && o.Open? && ParamNames(o.data) == Some(ps)
      && Get(o.data, "body") == Hash(body)
    requires EvalOperands(ParamItems(ps, rec), false, o.scope, scope, env, o.st) == OperandsReply(All(inner), st2)
    requires TailTo(Hash(body), inner, env, st2) == Reply(Tail(body, inner), st2)
    ensures Inner(CallOf(fn, rec), scope, env, st) == Reply(Tail(body, inner), st2)
  {
    hide EvalOperand, EvalOperands, OpenClosure, ParamNames, ParamItems, TailTo, Error, CallOf, EvalApplyHandler;
    var e := CallOf(fn, rec);
    CallData(fn, rec);
    assert EvalApplyClosure(e, scope, env, st) == Reply(Tail(body, inner), st2);
    assert EvalApply(e, scope, env, st) == EvalApplyClosure(e, scope, env, st);
    assert e.typ == Apply && e.data.Rec? by { CallType(fn, rec); }
  }

  lemma CallType(fn: Entity, rec: map<string, Value>)
    ensures CallOf(fn, rec).typ == Apply && CallOf(fn, rec).data.Rec?
  {
  }

  lemma CallData(fn: Entity, rec: map<string, Value>)
    ensures var e := CallOf(fn, rec);
            Get(e.data, "fn") == Hash(fn) && Get(e.data, "path") == Null && ArgsOf(e) == Some(rec)
  {
    assert Get(CallOf(fn, rec).data, "args") == Rec(rec);
  }

  /**
   Applying the closure a lambda made in scope `s`: the arguments are evaluated where the call is,
   the body in the materialized `s` extended with them, in tail position.
   */
  lemma CallRule(c: Ctx, scope: Scope, fn: Arg, ps: seq<string>, body: Entity, s: Scope, args: seq<Arg>,
      rec: map<string, Value>, v: Value, k: nat, d: nat, puts: set<Entity>)
    requires ArgGives(c, scope, fn) && fn.value == ClosureOf(ps, body, s) && CaptureMarks(s) <= c.held + fn.puts
    requires NamesMatch(ps, args) && Supplies(rec, args) && body in c.nodes && !body.typ.ErrorValue?
    requires forall i | 0 <= i < |args| :: ArgGives(c.(held := c.held + fn.puts), scope, args[i])
    requires Gives(c.(held := c.held + (fn.puts + AllPuts(args))), body, Bind(MaterializedScope(s), args), v, k, d,
      puts)
    ensures Gives(c, CallOf(fn.expr, rec), scope, v, 1 + fn.cost + TotalCost(args) + k,
                  Max(1 + Max(fn.need, MaxNeed(args)), d), puts)
  {
    hide Inner, ArgGives, Ready, ClosureOf, CaptureMarks, MaterializedScope, CallOf, Supplies, NamesMatch, Gives;
    var inner, j, need := Bind(MaterializedScope(s), args), fn.cost + TotalCost(args), Max(fn.need, MaxNeed(args));
    forall st | Ready(c, st, j, need)
      ensures TailsTo(st, Inner(CallOf(fn.expr, rec), scope, c.env, st), body, inner, j, fn.puts + AllPuts(args))
    {
      CallInner(c, scope, fn, ps, body, s, args, rec, st);
    }
    TailForm(c, CallOf(fn.expr, rec), scope, body, inner, j, need, fn.puts + AllPuts(args), v, k, d, puts);
  }
}
