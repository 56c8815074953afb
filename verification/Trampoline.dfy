/**
 `evaluate` as the loop it is: it decrements the caller's budget object and the context grows in
 place, one iteration per tail call.  The method is proved equal to the recursive evaluator.
 */
module Trampoline {
  import opened Values
  import E = Evaluator

  class Budget {
    var operations: int
    var depth: int

    constructor (operations: int, depth: int)
      ensures this.operations == operations && this.depth == depth
    {
      this.operations, this.depth := operations, depth;
    }
  }

  /** The evaluation context; the last three fields only record what happened. */
  class EvalContext {
    const env: E.Env
    var store: set<Entity>
    var encountered: set<Entity>
    var dependencies: seq<string>
    var tripped: bool
    var steps: nat
    var produced: nat

    constructor (env: E.Env, store: set<Entity>)
      ensures this.env == env && this.store == store && encountered == {} && dependencies == []
      ensures !tripped && steps == 0 && produced == 0
    {
      this.env, this.store := env, store;
      encountered, dependencies, tripped, steps, produced := {}, [], false, 0, 0;
    }
  }

  function Snapshot(budget: Budget, ctx: EvalContext): E.State
    reads budget, ctx
  {
    E.State(budget.operations, budget.depth, ctx.store, ctx.encountered, ctx.dependencies,
            ctx.tripped, ctx.steps, ctx.produced)
  }

  method Restore(budget: Budget, ctx: EvalContext, st: E.State)
    modifies budget, ctx
    ensures Snapshot(budget, ctx) == st
  {
    budget.operations, budget.depth := st.ops, st.depth;
    ctx.store, ctx.encountered, ctx.dependencies := st.store, st.encountered, st.deps;
    ctx.tripped, ctx.steps, ctx.produced := st.tripped, st.steps, st.produced;
  }

  /** One turn of the recursive evaluator's trampoline. */
  lemma Turn(e: Entity, s: Scope, env: E.Env, st: E.State)
    ensures var spent := st.(ops := st.ops - 1);
            var r := E.Inner(e, s, env, spent.(steps := spent.steps + 1));
            var t := E.Trampoline(e, s, env, st);
            if spent.ops <= 0 then
              t == E.Reply(E.Done(Error(BUDGET_EXHAUSTED, "computation budget exhausted")),
                           spent.(depth := spent.depth + 1, tripped := true))
            else match r.step
              case Tail(next, s') => t == E.Trampoline(next, s', env, r.st)
              case Done(_) => t == r.(st := r.st.(depth := r.st.depth + 1))
              case Abort(_) => t == r
  {
    hide E.Inner, Error;
  }

  lemma Entry(e: Entity, s: Scope, env: E.Env, st: E.State)
    ensures E.Evaluate(e, s, env, st) ==
            if st.depth <= 0 then
              E.Reply(E.Done(Error(DEPTH_EXCEEDED, "maximum evaluation depth exceeded")), st.(tripped := true))
            else E.Trampoline(e, s, env, st.(depth := st.depth - 1))
  {
    hide E.Trampoline, Error;
  }

  /**
   Depth is checked and taken once on entry and given back on every return; the loop reuses that
   slot for tail calls and pays one operation per iteration.
   */
  method Evaluate(entity: Entity, scope: Scope, budget: Budget, ctx: EvalContext) returns (result: E.Step)
    modifies budget, ctx
    ensures E.Reply(result, Snapshot(budget, ctx)) == E.Evaluate(entity, scope, ctx.env, old(Snapshot(budget, ctx)))
    ensures !result.Tail?
    ensures result.Done? ==> budget.depth == old(budget.depth)
    ensures budget.operations <= old(budget.operations) && old(ctx.dependencies) <= ctx.dependencies
  {
    hide E.Evaluate, E.Trampoline, E.Inner, Error;
    Entry(entity, scope, ctx.env, Snapshot(budget, ctx));
    if budget.depth <= 0 {
      ctx.tripped := true;
      return E.Done(Error(DEPTH_EXCEEDED, "maximum evaluation depth exceeded"));
    }
    budget.depth := budget.depth - 1;
    var e, s := entity, scope;
    while true
      invariant E.Trampoline(e, s, ctx.env, Snapshot(budget, ctx)) ==
                E.Evaluate(entity, scope, ctx.env, old(Snapshot(budget, ctx)))
      decreases E.Pos(budget.operations)
    {
      Turn(e, s, ctx.env, Snapshot(budget, ctx));
      budget.operations := budget.operations - 1;
      if budget.operations <= 0 {
        budget.depth := budget.depth + 1;
        ctx.tripped := true;
        return E.Done(Error(BUDGET_EXHAUSTED, "computation budget exhausted"));
      }
      ctx.steps := ctx.steps + 1;
      var r := E.Inner(e, s, ctx.env, Snapshot(budget, ctx));
      Restore(budget, ctx, r.st);
      match r.step {
        case Tail(next, scope') =>
          e, s := next, scope';
        case Done(_) =>
          budget.depth := budget.depth + 1;
          return r.step;
        case Abort(_) =>
          return r.step;
      }
    }
  }
}
