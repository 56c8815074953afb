/** The bounds a request carries along a causal chain, and the depth brake they feed. */
module ChainBounds {
  import opened Values

  const MAX_CHAIN_DEPTH := 64
  const CHAIN_TTL := 8 * MAX_CHAIN_DEPTH

  /** Causal depth and time to live, each possibly absent. */
  datatype Bounds = Bounds(depth: Option<int>, ttl: Option<int>)

  /** Seeding an advance: the depth goes up by one, and at the origin the time to live is raised. */
  function Seed(b: Bounds): Bounds {
    var inherited := if b.depth.Some? then b.depth.value else 0;
    var ttl := if inherited == 0 && (b.ttl.None? || b.ttl.value < CHAIN_TTL) then Some(CHAIN_TTL) else b.ttl;
    Bounds(Some(inherited + 1), ttl)
  }

  predicate DepthExceeded(b: Bounds) {
    (if b.depth.Some? then b.depth.value else 0) > MAX_CHAIN_DEPTH
  }

  /** An advance that arrives with these bounds is past the ceiling. */
  predicate Braked(b: Bounds) {
    DepthExceeded(Seed(b))
  }

  /** What a dispatch made under seeded bounds hands on, after spending `cost` of its time to live. */
  function Inherit(b: Bounds, cost: int): Bounds {
    b.(ttl := if b.ttl.Some? then Some(b.ttl.value - cost) else None)
  }
}
