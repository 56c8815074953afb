/**
 The 64-bit two's-complement integer model of compute: arithmetic, ordering and
 numeric casts as the evaluator applies them, and the laws they satisfy.
 */
module Integers {
  import opened Values

  const M: int := 0x1_0000_0000_0000_0000
  const HALF: int := 0x8000_0000_0000_0000
  const INT64_MIN: int := -HALF
  const INT64_MAX: int := HALF - 1
  const UINT64_MAX: int := M - 1

  /** The 64-bit pattern of an integer, read unsigned. */
  function Bits64(v: int): (b: int)
    ensures 0 <= b < M
  {
    v % M
  }

  /** A 64-bit pattern read as signed two's complement. */
  function Signed64(bits: int): (s: int)
    ensures Canonical(s)
  {
    var b := Bits64(bits);
    if b >= HALF then b - M else b
  }

  predicate Canonical(v: int) { -HALF <= v < HALF }

  function OperandInt(v: int, unsigned: bool): int {
    if unsigned then Bits64(v) else Signed64(Bits64(v))
  }

  /** An operand expression that makes the consuming operation unsigned: a direct cast to uint. */
  predicate IsUintCast(ref: Value) {
    ref.Hash? && ref.target.typ.NumericCast? && Get(ref.target.data, "to_type") == Str("primitive/uint")
  }

  predicate IsNumeric(v: Value) { v.Int? || v.Flt? }

  function ToFloat(v: Value): Float
    requires IsNumeric(v)
  {
    if v.Int? then Finite(v.i as real) else v.f
  }

  function Abs(x: int): nat { if x < 0 then -x else x }

  /** The sign of a float that is not NaN. */
  predicate Negative(f: Float) {
    (f.Finite? && f.r < 0.0) || (f.Infinite? && f.negative)
  }

  function Negated(f: Float): Float {
    match f
    case Finite(r) => Finite(-r)
    case NaN => NaN
    case Infinite(negative) => Infinite(!negative)
  }

  function AddFloats(l: Float, r: Float): Float {
    if l.NaN? || r.NaN? then NaN
    else if l.Infinite? && r.Infinite? then (if l == r then l else NaN)
    else if l.Infinite? then l
    else if r.Infinite? then r
    else Finite(l.r + r.r)
  }

  function MulFloats(l: Float, r: Float): Float {
    if l.NaN? || r.NaN? then NaN
    else if l.Finite? && r.Finite? then Finite(l.r * r.r)
    else if l == Finite(0.0) || r == Finite(0.0) then NaN
    else Infinite(Negative(l) != Negative(r))
  }

  /** A zero divisor gives NaN for a zero dividend and otherwise an infinity of the dividend's sign. */
  function DivFloats(l: Float, r: Float): Float {
    if r == Finite(0.0) then (if l == Finite(0.0) then NaN else Infinite(Negative(l)))
    else if l.NaN? || r.NaN? || (l.Infinite? && r.Infinite?) then NaN
    else if l.Infinite? then Infinite(Negative(l) != Negative(r))
    else if r.Infinite? then Finite(0.0)
    else Finite(l.r / r.r)
  }

  /** The result of a float operation; rounding is not modelled. */
  function FloatArithmetic(op: Value, l: Float, r: Float): (v: Value)
    ensures NoLive(v) && Refs(v) == {}
  {
    if op == Str("add") then Flt(AddFloats(l, r))
    else if op == Str("sub") then Flt(AddFloats(l, Negated(r)))
    else if op == Str("mul") then Flt(MulFloats(l, r))
    else if op == Str("div") then Flt(DivFloats(l, r))
    else if op == Str("mod") then Error(TYPE_MISMATCH, "modulo requires integer operands")
    else Error(INVALID_EXPRESSION, "unknown arithmetic op")
  }

  function ApplyArithmetic(op: Value, left: Value, right: Value, lUint: bool, rUint: bool): (v: Value)
    ensures NoLive(v) && Refs(v) == {}
  {
    if !IsNumeric(left) || !IsNumeric(right) then
      Error(TYPE_MISMATCH, "arithmetic requires numeric operands")
    else if left.Flt? || right.Flt? then FloatArithmetic(op, ToFloat(left), ToFloat(right))
    else if op == Str("add") then Int(Signed64(Bits64(left.i) + Bits64(right.i)))
    else if op == Str("sub") then Int(Signed64(Bits64(left.i) - Bits64(right.i)))
    else if op == Str("mul") then Int(Signed64(Bits64(left.i) * Bits64(right.i)))
    else if op == Str("div") || op == Str("mod") then
      var a, b := OperandInt(left.i, lUint), OperandInt(right.i, rUint);
      if b == 0 then Error(DIVISION_BY_ZERO, "division by zero")
      else if op == Str("div") then
        if a % b == 0 then Int(Signed64(a / b)) else Flt(Finite(a as real / b as real))
      else
        var m := Abs(a) % Abs(b);
        Int(Signed64(if a < 0 then -m else m))
    else Error(INVALID_EXPRESSION, "unknown arithmetic op")
  }

  /** Truncation of a real toward zero. */
  function Truncate(r: real): int {
    if r >= 0.0 then r.Floor else -((-r).Floor)
  }

  function ApplyNumericCast(toType: Value, v: Value): (r: Value)
    ensures NoLive(r) && Refs(r) == {}
  {
    if toType != Str("primitive/int") && toType != Str("primitive/uint") && toType != Str("primitive/float") then
      Error(TYPE_MISMATCH, "to_type must be numeric")
    else if !IsNumeric(v) then Error(TYPE_MISMATCH, "value must be numeric")
    else if toType == Str("primitive/float") then Flt(ToFloat(v))
    else if v.Flt? then
      if !v.f.Finite? then Error(CAST_OUT_OF_RANGE, "not finite")
      else
        var t := Truncate(v.f.r);
        if toType == Str("primitive/int") then
          if INT64_MIN <= t <= INT64_MAX then Int(t) else Error(CAST_OUT_OF_RANGE, "out of range for int")
        else
          if 0 <= t <= UINT64_MAX then Int(t) else Error(CAST_OUT_OF_RANGE, "out of range for uint")
    else if toType == Str("primitive/int") then Int(Signed64(Bits64(v.i)))
    else Int(Bits64(v.i))
  }

  /** Strict order of the UTF-8 encodings. */
  predicate StringLess(a: string, b: string) {
    a != b && LexLeq(a, b)
  }

  /** IEEE equality: NaN equals nothing. */
  predicate FloatEqual(l: Float, r: Float) {
    l == r && !l.NaN?
  }

  predicate FloatLess(l: Float, r: Float) {
    match l
    case NaN => false
    case Infinite(negative) => negative && !r.NaN? && l != r
    case Finite(x) => (r.Finite? && x < r.r) || (r.Infinite? && !r.negative)
  }

  function CompareNum(v: Value, unsigned: bool): Float
    requires IsNumeric(v)
  {
    if v.Flt? then v.f else Finite(OperandInt(v.i, unsigned) as real)
  }

  predicate SameTypeClass(a: Value, b: Value) {
    (IsNumeric(a) && IsNumeric(b)) || (IsBytes(a) && IsBytes(b)) ||
    (a.Null? && b.Null?) || (a.Bool? && b.Bool?) || (a.Str? && b.Str?) ||
    (a.Arr? && b.Arr?) || (a.Rec? && b.Rec?) || (a.Ent? && b.Ent?)
  }

  predicate IsOrdering(op: Value) {
    op == Str("lt") || op == Str("gt") || op == Str("lte") || op == Str("gte")
  }

  function Ordered(op: Value, less: bool, equal: bool): bool {
    if op == Str("lt") then less && !equal
    else if op == Str("gt") then !less && !equal
    else if op == Str("lte") then less || equal
    else !less || equal
  }

  function ApplyCompare(op: Value, left: Value, right: Value, lUint: bool, rUint: bool): (v: Value)
    ensures NoLive(v) && Refs(v) == {}
  {
    var numeric := IsNumeric(left) && IsNumeric(right);
    if op == Str("eq") || op == Str("neq") then
      var equal :=
        if numeric then FloatEqual(CompareNum(left, lUint), CompareNum(right, rUint))
        else SameTypeClass(left, right) && left == right;
      Bool(if op == Str("eq") then equal else !equal)
    else if IsOrdering(op) && numeric then
      var l, r := CompareNum(left, lUint), CompareNum(right, rUint);
      Bool(!l.NaN? && !r.NaN? && Ordered(op, FloatLess(l, r), FloatEqual(l, r)))
    else if IsOrdering(op) && left.Str? && right.Str? then
      Bool(Ordered(op, StringLess(left.s, right.s), left.s == right.s))
    else Error(TYPE_MISMATCH, "ordering requires numeric or string operands")
  }

  // ---------------------------------------------------------------- laws

  /** Two integers denote the same 64-bit pattern. */
  predicate Congruent(x: int, y: int) { (x - y) % M == 0 }

  lemma CongruentWitness(x: int, y: int, k: int)
    requires x - y == k * M
    ensures Congruent(x, y)
  {
  }

  lemma CongruentQuotient(x: int, y: int) returns (k: int)
    requires Congruent(x, y)
    ensures x - y == k * M
  {
    k := (x - y) / M;
  }

  /** Signed reading of a pattern is the one canonical integer congruent to it. */
  lemma SignedIsCanonicalRepresentative(x: int, y: int)
    ensures Canonical(Signed64(x)) && Congruent(Signed64(x), x)
    ensures Canonical(y) && Congruent(y, x) ==> y == Signed64(x)
  {
    var b := Bits64(x);
    CongruentWitness(Signed64(x), x, if b >= HALF then -(x / M) - 1 else -(x / M));
    if Canonical(y) && Congruent(y, x) {
      var k := CongruentQuotient(y, x);
      var j := CongruentQuotient(Signed64(x), x);
      assert y - Signed64(x) == (k - j) * M;
    }
  }

  lemma SignedOfCongruent(x: int, y: int)
    requires Congruent(x, y)
    ensures Signed64(x) == Signed64(y)
  {
    SignedIsCanonicalRepresentative(x, 0);
    SignedIsCanonicalRepresentative(y, Signed64(x));
    var k := CongruentQuotient(Signed64(x), x);
    var j := CongruentQuotient(x, y);
    CongruentWitness(Signed64(x), y, k + j);
  }

  lemma BitsCongruent(x: int)
    ensures Congruent(Bits64(x), x)
  {
    CongruentWitness(Bits64(x), x, -(x / M));
  }

  /** The value an integer operation denotes over the unbounded integers. */
  function Exact(op: Value, a: int, b: int): int {
    if op == Str("add") then a + b else if op == Str("sub") then a - b else a * b
  }

  predicate IsRingOp(op: Value) { op == Str("add") || op == Str("sub") || op == Str("mul") }

  lemma ExactCongruent(op: Value, a: int, b: int, a': int, b': int)
    requires IsRingOp(op) && Congruent(a, a') && Congruent(b, b')
    ensures Congruent(Exact(op, a, b), Exact(op, a', b'))
  {
    var j := CongruentQuotient(a, a');
    var k := CongruentQuotient(b, b');
    if op == Str("add") { CongruentWitness(a + b, a' + b', j + k); }
    else if op == Str("sub") { CongruentWitness(a - b, a' - b', j - k); }
    else {
      ProductDifference(a, b, a', b', j, k);
      CongruentWitness(a * b, a' * b', j * b + a' * k);
    }
  }

  lemma ProductDifference(a: int, b: int, a': int, b': int, j: int, k: int)
    requires a - a' == j * M && b - b' == k * M
    ensures a * b - a' * b' == (j * b + a' * k) * M
  {
    calc {
      a * b - a' * b';
      (a - a') * b + a' * (b - b');
      (j * M) * b + a' * (k * M);
      (j * b + a' * k) * M;
    }
  }

  /**
   add, sub and mul return the unique canonical integer congruent to the true result, and
   depend only on the bit patterns of their operands, however those are represented.
   */
  lemma RingOperationsAreModular(op: Value, a: int, b: int, a': int, b': int, lu: bool, ru: bool, y: int)
    requires IsRingOp(op)
    ensures var r := ApplyArithmetic(op, Int(a), Int(b), lu, ru);
            && r == Int(Signed64(Exact(op, a, b)))
            && Canonical(r.i) && Congruent(r.i, Exact(op, a, b))
            && (Canonical(y) && Congruent(y, Exact(op, a, b)) ==> r == Int(y))
            && (Congruent(a, a') && Congruent(b, b') ==> r == ApplyArithmetic(op, Int(a'), Int(b'), lu, ru))
  {
    BitsCongruent(a);
    BitsCongruent(b);
    ExactCongruent(op, Bits64(a), Bits64(b), a, b);
    SignedOfCongruent(Exact(op, Bits64(a), Bits64(b)), Exact(op, a, b));
    SignedIsCanonicalRepresentative(Exact(op, a, b), y);
    if Congruent(a, a') && Congruent(b, b') {
      BitsCongruent(a');
      BitsCongruent(b');
      ExactCongruent(op, Bits64(a'), Bits64(b'), a', b');
      ExactCongruent(op, a, b, a', b');
      SignedOfCongruent(Exact(op, Bits64(a'), Bits64(b')), Exact(op, a', b'));
      SignedOfCongruent(Exact(op, a, b), Exact(op, a', b'));
    }
  }

  function Add(x: Value, y: Value): Value { ApplyArithmetic(Str("add"), x, y, false, false) }
  function Sub(x: Value, y: Value): Value { ApplyArithmetic(Str("sub"), x, y, false, false) }
  function Mul(x: Value, y: Value): Value { ApplyArithmetic(Str("mul"), x, y, false, false) }

  lemma SignedCongruent(x: int)
    ensures Congruent(Signed64(x), x)
  {
    SignedIsCanonicalRepresentative(x, 0);
  }

  lemma RingIs(a: int, b: int)
    ensures Add(Int(a), Int(b)) == Int(Signed64(a + b))
    ensures Sub(Int(a), Int(b)) == Int(Signed64(a - b))
    ensures Mul(Int(a), Int(b)) == Int(Signed64(a * b))
  {
    RingOperationsAreModular(Str("add"), a, b, a, b, false, false, 0);
    RingOperationsAreModular(Str("sub"), a, b, a, b, false, false, 0);
    RingOperationsAreModular(Str("mul"), a, b, a, b, false, false, 0);
  }

  /** An inner wrap makes no difference under an outer one. */
  lemma WrapInside(x: int, y: int)
    ensures Signed64(Signed64(x) + y) == Signed64(x + y)
    ensures Signed64(Signed64(x) - y) == Signed64(x - y)
    ensures Signed64(Signed64(x) * y) == Signed64(x * y)
  {
    hide Signed64, Bits64;
    SignedCongruent(x);
    assert Congruent(y, y);
    ExactCongruent(Str("add"), Signed64(x), y, x, y);
    ExactCongruent(Str("sub"), Signed64(x), y, x, y);
    ExactCongruent(Str("mul"), Signed64(x), y, x, y);
    SignedOfCongruent(Signed64(x) + y, x + y);
    SignedOfCongruent(Signed64(x) - y, x - y);
    SignedOfCongruent(Signed64(x) * y, x * y);
  }

  lemma SignedOfCanonical(a: int)
    requires Canonical(a)
    ensures Signed64(a) == a && OperandInt(a, false) == a
  {
    assert Congruent(a, a);
    SignedIsCanonicalRepresentative(a, a);
    BitsCongruent(a);
    SignedOfCongruent(Bits64(a), a);
  }

  lemma AddAssociates(a: int, b: int, c: int)
    ensures Add(Add(Int(a), Int(b)), Int(c)) == Add(Int(a), Add(Int(b), Int(c)))
  {
    hide Add, Sub, Mul, Signed64, ApplyArithmetic;
    RingIs(a, b); RingIs(b, c);
    RingIs(Signed64(a + b), c); RingIs(a, Signed64(b + c));
    WrapInside(a + b, c); WrapInside(b + c, a);
    assert Signed64(b + c) + a == a + Signed64(b + c);
  }

  lemma MulAssociates(a: int, b: int, c: int)
    ensures Mul(Mul(Int(a), Int(b)), Int(c)) == Mul(Int(a), Mul(Int(b), Int(c)))
  {
    hide Add, Sub, Mul, Signed64, ApplyArithmetic;
    RingIs(a, b); RingIs(b, c);
    RingIs(Signed64(a * b), c); RingIs(a, Signed64(b * c));
    WrapInside(a * b, c); WrapInside(b * c, a);
    ProductsAgree(a, b, c);
    assert Signed64(b * c) * a == a * Signed64(b * c);
  }

  lemma ProductsAgree(a: int, b: int, c: int)
    ensures (a * b) * c == (b * c) * a
    ensures (b + c) * a == a * b + a * c
  {
  }

  lemma MulDistributes(a: int, b: int, c: int)
    ensures Mul(Int(a), Add(Int(b), Int(c))) == Add(Mul(Int(a), Int(b)), Mul(Int(a), Int(c)))
  {
    hide Add, Sub, Mul, Signed64, ApplyArithmetic;
    RingIs(b, c); RingIs(a, b); RingIs(a, c);
    RingIs(a, Signed64(b + c)); RingIs(Signed64(a * b), Signed64(a * c));
    WrapInside(b + c, a);
    assert Signed64(b + c) * a == a * Signed64(b + c);
    WrapInside(a * b, Signed64(a * c));
    WrapInside(a * c, a * b);
    assert a * b + Signed64(a * c) == Signed64(a * c) + a * b;
    ProductsAgree(a, b, c);
  }

  lemma SubUndoesAdd(a: int, b: int)
    requires Canonical(a)
    ensures Sub(Add(Int(a), Int(b)), Int(b)) == Int(a)
  {
    hide Add, Sub, Signed64, ApplyArithmetic;
    RingIs(a, b); RingIs(Signed64(a + b), b);
    WrapInside(a + b, b);
    assert (a + b) - b == a;
    SignedOfCanonical(a);
  }

  /** The evaluator's integers form a commutative ring under add and mul, and sub undoes add. */
  lemma RingLaws(a: int, b: int, c: int)
    ensures Add(Int(a), Int(b)) == Add(Int(b), Int(a)) && Mul(Int(a), Int(b)) == Mul(Int(b), Int(a))
    ensures Add(Add(Int(a), Int(b)), Int(c)) == Add(Int(a), Add(Int(b), Int(c)))
    ensures Mul(Mul(Int(a), Int(b)), Int(c)) == Mul(Int(a), Mul(Int(b), Int(c)))
    ensures Mul(Int(a), Add(Int(b), Int(c))) == Add(Mul(Int(a), Int(b)), Mul(Int(a), Int(c)))
    ensures Canonical(a) ==> Sub(Add(Int(a), Int(b)), Int(b)) == Int(a)
  {
    hide Add, Sub, Mul, Signed64, ApplyArithmetic;
    RingIs(a, b); RingIs(b, a);
    assert a * b == b * a && a + b == b + a;
    AddAssociates(a, b, c);
    MulAssociates(a, b, c);
    MulDistributes(a, b, c);
    if Canonical(a) { SubUndoesAdd(a, b); }
  }

  lemma QuotientTimesDivisor(a: int, b: int)
    requires b != 0 && a % b == 0
    ensures (a / b) * b == a
  {
  }

  lemma RealQuotient(a: int, b: int)
    requires b != 0
    ensures (a as real / b as real) * b as real == a as real
  {
  }

  /**
   For canonical operands a quotient is an integer exactly when the division is exact, and the
   quotient times the divisor is the dividend again.  The one wrapping case, INT64_MIN divided
   by -1, is included.
   */
  lemma DivThenMul(a: int, b: int)
    requires Canonical(a) && Canonical(b) && b != 0
    ensures var q := ApplyArithmetic(Str("div"), Int(a), Int(b), false, false);
            && (q.Int? <==> a % b == 0)
            && (q.Int? ==> Mul(q, Int(b)) == Int(a))
            && (!q.Int? ==> q.Flt? && q.f.Finite? && q.f.r * b as real == a as real)
  {
    SignedOfCanonical(a);
    SignedOfCanonical(b);
    if a % b == 0 {
      var q := a / b;
      QuotientTimesDivisor(a, b);
      RingIs(Signed64(q), b);
      WrapInside(q, b);
    } else {
      RealQuotient(a, b);
    }
  }

  lemma NaturalRemainder(x: nat, d: nat) returns (q: int)
    requires d > 0
    ensures x == q * d + x % d && 0 <= x % d < d && x % d <= x
  {
    q := x / d;
    assert q * d >= 0;
  }

  lemma SignedMultiple(a: int, b: int, q: int, m: int) returns (k: int)
    requires Abs(a) == q * Abs(b) + m
    ensures a - (if a < 0 then -m else m) == k * b
  {
    k := if (a < 0) == (b < 0) then q else -q;
    if b < 0 { assert q * Abs(b) == (-q) * b; }
  }

  lemma TruncatedRemainder(a: int, b: int)
    requires b != 0
    ensures 0 <= Abs(a) % Abs(b) < Abs(b) && Abs(a) % Abs(b) <= Abs(a)
    ensures (a - (if a < 0 then -(Abs(a) % Abs(b)) else Abs(a) % Abs(b))) % b == 0
  {
    var q := NaturalRemainder(Abs(a), Abs(b));
    var k := SignedMultiple(a, b, q, Abs(a) % Abs(b));
    MultipleMod(k, b);
  }

  lemma MultipleMod(k: int, b: int)
    requires b != 0
    ensures (k * b) % b == 0
  {
    var q, r := (k * b) / b, (k * b) % b;
    assert (k - q) * b == r;
    NoSmallMultiple(k - q, b);
  }

  lemma NoSmallMultiple(d: int, b: int)
    requires b != 0
    ensures d * b == 0 || d * b < 0 || d * b >= Abs(b)
  {
    if d >= 1 && b > 0 { assert (d - 1) * b >= 0; }
    else if d <= -1 && b < 0 { assert (d + 1) * b >= 0; }
    else if d != 0 { assert d * b < 0; }
  }

  /** Signed mod truncates: smaller than the divisor, the dividend's sign, and exact. */
  lemma SignedModIsTruncated(a: int, b: int)
    requires Canonical(a) && Canonical(b) && b != 0
    ensures var m := ApplyArithmetic(Str("mod"), Int(a), Int(b), false, false);
            && m.Int? && Abs(m.i) < Abs(b)
            && (m.i == 0 || (m.i < 0 <==> a < 0))
            && (a - m.i) % b == 0
  {
    SignedOfCanonical(a);
    SignedOfCanonical(b);
    var m := Abs(a) % Abs(b);
    TruncatedRemainder(a, b);
    SignedOfCanonical(if a < 0 then -m else m);
  }

  /** Casting to uint gives the bit pattern's magnitude, and casting back is the identity on canonical integers. */
  lemma CastRoundTrip(a: int)
    ensures var u := ApplyNumericCast(Str("primitive/uint"), Int(a));
            && u.Int? && 0 <= u.i <= UINT64_MAX && Congruent(u.i, a)
            && ApplyNumericCast(Str("primitive/int"), u) == Int(Signed64(a))
            && (Canonical(a) ==> ApplyNumericCast(Str("primitive/int"), u) == Int(a))
  {
    BitsCongruent(a);
    BitsCongruent(Bits64(a));
    SignedOfCongruent(Bits64(a), a);
    SignedOfCongruent(Bits64(Bits64(a)), Bits64(a));
    if Canonical(a) { SignedOfCanonical(a); }
  }
}
