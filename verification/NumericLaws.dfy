/**
 What the numeric operations compute, in terms of the integers, the reals and the strings they are about:
 comparison as the order of the numbers read and of the characters, unsigned division, float arithmetic
 and the casts to integers.
 */
module NumericLaws {
  import opened Values
  import opened Integers

  /** An operand is an integer of 64 bits, written with a sign or without one. */
  predicate Wide(a: int) { INT64_MIN <= a <= UINT64_MAX }

  /** The number an operand is read as: without a sign where its expression is a cast to uint, else with one. */
  function Read(a: int, unsigned: bool): int {
    if unsigned then (if a < 0 then a + M else a) else (if a > INT64_MAX then a - M else a)
  }

  lemma ReadIs(a: int, unsigned: bool)
    requires Wide(a)
    ensures OperandInt(a, unsigned) == Read(a, unsigned)
    ensures if unsigned then 0 <= Read(a, unsigned) < M else Canonical(Read(a, unsigned))
  {
    if unsigned { BitsOf(a); } else { SignedOf(a); }
  }

  lemma BitsOf(a: int)
    requires Wide(a)
    ensures Bits64(a) == Read(a, true)
  {
    var k := a / M;
    assert a == k * M + a % M;
  }

  lemma SignedOf(a: int)
    requires Wide(a)
    ensures Signed64(Bits64(a)) == Read(a, false)
  {
    BitsOf(a);
    BitsOf(Bits64(a));
  }

  // ---------------------------------------------------------------- comparison

  const LT := Str("lt")
  const GT := Str("gt")
  const LTE := Str("lte")
  const GTE := Str("gte")
  const EQ := Str("eq")
  const NEQ := Str("neq")

  predicate IsComparison(op: Value) { op in {LT, GT, LTE, GTE, EQ, NEQ} }

  /** How two numbers, as floats, stand to each other. */
  predicate Stand(op: Value, x: Float, y: Float) {
    if op == EQ then FloatEqual(x, y)
    else if op == NEQ then !FloatEqual(x, y)
    else !x.NaN? && !y.NaN? && Ordered(op, FloatLess(x, y), FloatEqual(x, y))
  }

  lemma NumbersStand(op: Value, l: Value, r: Value, lUint: bool, rUint: bool)
    requires IsComparison(op) && IsNumeric(l) && IsNumeric(r)
    ensures ApplyCompare(op, l, r, lUint, rUint) == Bool(Stand(op, CompareNum(l, lUint), CompareNum(r, rUint)))
  {
    hide CompareNum, FloatLess, FloatEqual, Ordered, Error;
  }

  lemma AllStand(l: Value, r: Value, lUint: bool, rUint: bool)
    requires IsNumeric(l) && IsNumeric(r)
    ensures forall op | IsComparison(op) ::
              ApplyCompare(op, l, r, lUint, rUint) == Bool(Stand(op, CompareNum(l, lUint), CompareNum(r, rUint)))
    ensures forall op | op in {LT, GT, LTE, GTE, EQ, NEQ} :: IsComparison(op)
  {
    hide ApplyCompare, Stand, CompareNum;
    forall op | IsComparison(op)
      ensures ApplyCompare(op, l, r, lUint, rUint) == Bool(Stand(op, CompareNum(l, lUint), CompareNum(r, rUint)))
    {
      NumbersStand(op, l, r, lUint, rUint);
    }
  }

  /** Finite floats stand to each other as reals do. */
  lemma FiniteStand(x: real, y: real)
    ensures Stand(LT, Finite(x), Finite(y)) == (x < y) && Stand(GT, Finite(x), Finite(y)) == (x > y)
    ensures Stand(LTE, Finite(x), Finite(y)) == (x <= y) && Stand(GTE, Finite(x), Finite(y)) == (x >= y)
    ensures Stand(EQ, Finite(x), Finite(y)) == (x == y) && Stand(NEQ, Finite(x), Finite(y)) == (x != y)
  {
  }

  /** The special ones: NaN beside everything, the infinities around. */
  lemma SpecialStand(op: Value, f: Float, x: real, n: bool, m: bool)
    requires IsComparison(op)
    ensures Stand(op, NaN, f) == (op == NEQ) && Stand(op, f, NaN) == (op == NEQ)
    ensures Stand(op, Infinite(false), Finite(x)) == (op in {GT, GTE, NEQ})
    ensures Stand(op, Finite(x), Infinite(false)) == (op in {LT, LTE, NEQ})
    ensures Stand(op, Infinite(true), Finite(x)) == (op in {LT, LTE, NEQ})
    ensures Stand(op, Finite(x), Infinite(true)) == (op in {GT, GTE, NEQ})
    ensures Stand(op, Infinite(n), Infinite(m)) ==
            (op in if n == m then {LTE, GTE, EQ} else if n then {LT, LTE, NEQ} else {GT, GTE, NEQ})
  {
  }

  /** Integers compare as the numbers they are read as. */
  lemma IntegersCompare(a: int, b: int, aUint: bool, bUint: bool)
    requires Wide(a) && Wide(b)
    ensures var x, y := Read(a, aUint), Read(b, bUint);
            && ApplyCompare(LT, Int(a), Int(b), aUint, bUint) == Bool(x < y)
            && ApplyCompare(GT, Int(a), Int(b), aUint, bUint) == Bool(x > y)
            && ApplyCompare(LTE, Int(a), Int(b), aUint, bUint) == Bool(x <= y)
            && ApplyCompare(GTE, Int(a), Int(b), aUint, bUint) == Bool(x >= y)
            && ApplyCompare(EQ, Int(a), Int(b), aUint, bUint) == Bool(x == y)
            && ApplyCompare(NEQ, Int(a), Int(b), aUint, bUint) == Bool(x != y)
  {
    hide ApplyCompare, Stand, CompareNum, Read;
    var x, y := Read(a, aUint), Read(b, bUint);
    NumberCompared(Int(a), aUint);
    NumberCompared(Int(b), bUint);
    AllStand(Int(a), Int(b), aUint, bUint);
    FiniteStand(x as real, y as real);
  }

  /** The finite number a value stands for: a float's own, or the integer it is read as. */
  function Number(v: Value, unsigned: bool): real
    requires v.Int? || (v.Flt? && v.f.Finite?)
  {
    if v.Int? then Read(v.i, unsigned) as real else v.f.r
  }

  predicate IsNumber(v: Value) { (v.Int? && Wide(v.i)) || (v.Flt? && v.f.Finite?) }

  lemma NumberCompared(v: Value, unsigned: bool)
    requires IsNumber(v)
    ensures CompareNum(v, unsigned) == Finite(Number(v, unsigned))
  {
    if v.Int? { ReadIs(v.i, unsigned); }
  }

  /** Finite floats compare with each other and with integers as reals. */
  lemma FloatsCompare(l: Value, r: Value, lUint: bool, rUint: bool)
    requires IsNumber(l) && IsNumber(r)
    ensures var x, y := Number(l, lUint), Number(r, rUint);
            && ApplyCompare(LT, l, r, lUint, rUint) == Bool(x < y)
            && ApplyCompare(GT, l, r, lUint, rUint) == Bool(x > y)
            && ApplyCompare(LTE, l, r, lUint, rUint) == Bool(x <= y)
            && ApplyCompare(GTE, l, r, lUint, rUint) == Bool(x >= y)
            && ApplyCompare(EQ, l, r, lUint, rUint) == Bool(x == y)
            && ApplyCompare(NEQ, l, r, lUint, rUint) == Bool(x != y)
  {
    hide ApplyCompare, Stand, CompareNum, Number;
    NumberCompared(l, lUint);
    NumberCompared(r, rUint);
    AllStand(l, r, lUint, rUint);
    FiniteStand(Number(l, lUint), Number(r, rUint));
  }

  /** NaN is neither before, after nor equal to any number. */
  lemma NaNCompares(op: Value, v: Value, unsigned: bool)
    requires IsComparison(op) && IsNumeric(v)
    ensures ApplyCompare(op, Flt(NaN), v, false, unsigned) == Bool(op == NEQ)
    ensures ApplyCompare(op, v, Flt(NaN), unsigned, false) == Bool(op == NEQ)
  {
    hide ApplyCompare, Stand, IsComparison;
    NumbersStand(op, Flt(NaN), v, false, unsigned);
    NumbersStand(op, v, Flt(NaN), unsigned, false);
    SpecialStand(op, CompareNum(v, unsigned), 0.0, false, false);
  }

  /** The infinities lie around the finite numbers. */
  lemma InfiniteCompares(op: Value, v: Value, unsigned: bool)
    requires IsComparison(op) && IsNumber(v)
    ensures ApplyCompare(op, Flt(Infinite(false)), v, false, unsigned) == Bool(op in {GT, GTE, NEQ})
    ensures ApplyCompare(op, v, Flt(Infinite(false)), unsigned, false) == Bool(op in {LT, LTE, NEQ})
    ensures ApplyCompare(op, Flt(Infinite(true)), v, false, unsigned) == Bool(op in {LT, LTE, NEQ})
    ensures ApplyCompare(op, v, Flt(Infinite(true)), unsigned, false) == Bool(op in {GT, GTE, NEQ})
  {
    hide ApplyCompare, Stand, IsComparison;
    NumberCompared(v, unsigned);
    forall n: bool
      ensures ApplyCompare(op, Flt(Infinite(n)), v, false, unsigned)
              == Bool(Stand(op, Infinite(n), Finite(Number(v, unsigned))))
      ensures ApplyCompare(op, v, Flt(Infinite(n)), unsigned, false)
              == Bool(Stand(op, Finite(Number(v, unsigned)), Infinite(n)))
    {
      NumbersStand(op, Flt(Infinite(n)), v, false, unsigned);
      NumbersStand(op, v, Flt(Infinite(n)), unsigned, false);
    }
    SpecialStand(op, NaN, Number(v, unsigned), false, false);
  }

  lemma InfinitiesCompare(op: Value, n: bool, m: bool)
    requires IsComparison(op)
    ensures ApplyCompare(op, Flt(Infinite(n)), Flt(Infinite(m)), false, false) ==
            Bool(op in if n == m then {LTE, GTE, EQ} else if n then {LT, LTE, NEQ} else {GT, GTE, NEQ})
  {
    hide ApplyCompare, Stand, IsComparison;
    NumbersStand(op, Flt(Infinite(n)), Flt(Infinite(m)), false, false);
    SpecialStand(op, NaN, 0.0, n, m);
  }

  /** The strings agree before `i`, and `i` is where one ends or they differ. */
  predicate FirstDifference(s: string, t: string, i: nat) {
    && i <= |s| && i <= |t| && s[..i] == t[..i]
    && (i == |s| || i == |t| || s[i] != t[i])
  }

  predicate Precedes(s: string, t: string, i: nat)
    requires i <= |s| && i <= |t|
  {
    i < |t| && (i == |s| || s[i] < t[i])
  }

  lemma {:induction false} LexAtDifference(s: string, t: string, i: nat)
    requires FirstDifference(s, t, i)
    ensures LexLeq(s, t) <==> (i == |s| || Precedes(s, t, i))
    ensures s == t <==> i == |s| == |t|
    decreases i
  {
    if i > 0 {
      assert s[0] == s[..i][0] == t[..i][0] == t[0];
      assert s[1..][..i - 1] == s[..i][1..] == t[..i][1..] == t[1..][..i - 1];
      LexAtDifference(s[1..], t[1..], i - 1);
      assert s == [s[0]] + s[1..] && t == [t[0]] + t[1..];
    }
  }

  lemma StringsOrdered(op: Value, s: string, t: string, sUint: bool, tUint: bool)
    requires IsComparison(op)
    ensures ApplyCompare(op, Str(s), Str(t), sUint, tUint) ==
            Bool(if op == EQ then s == t else if op == NEQ then s != t else Ordered(op, StringLess(s, t), s == t))
  {
    hide Ordered, StringLess, Error;
  }

  /** Strings compare at their first difference; a proper prefix comes first. */
  lemma StringsCompare(s: string, t: string, i: nat, sUint: bool, tUint: bool)
    requires FirstDifference(s, t, i)
    ensures ApplyCompare(LT, Str(s), Str(t), sUint, tUint) == Bool(Precedes(s, t, i))
    ensures ApplyCompare(GT, Str(s), Str(t), sUint, tUint) == Bool(Precedes(t, s, i))
    ensures ApplyCompare(LTE, Str(s), Str(t), sUint, tUint) == Bool(!Precedes(t, s, i))
    ensures ApplyCompare(GTE, Str(s), Str(t), sUint, tUint) == Bool(!Precedes(s, t, i))
    ensures ApplyCompare(EQ, Str(s), Str(t), sUint, tUint) == Bool(s == t)
    ensures ApplyCompare(NEQ, Str(s), Str(t), sUint, tUint) == Bool(s != t)
  {
    hide LexLeq, ApplyCompare;
    LexAtDifference(s, t, i);
    forall op | op in {LT, GT, LTE, GTE, EQ, NEQ}
      ensures ApplyCompare(op, Str(s), Str(t), sUint, tUint) ==
              Bool(if op == EQ then s == t else if op == NEQ then s != t else Ordered(op, StringLess(s, t), s == t))
    {
      StringsOrdered(op, s, t, sUint, tUint);
    }
    if i == |s| == |t| { assert s == s[..i] && t == t[..i]; }
  }

  /** Keys go by the length of their encoding, and those of one length by their first difference. */
  lemma KeysOrdered(s: string, t: string, i: nat)
    requires FirstDifference(s, t, i) && s != t
    ensures KeyLeq(s, t) <==> ByteLength(s) < ByteLength(t) || (ByteLength(s) == ByteLength(t) && Precedes(s, t, i))
  {
    hide LexLeq, ByteLength;
    LexAtDifference(s, t, i);
    if i == |s| { assert s == s[..i]; }
    if i == |t| { assert t == t[..i]; }
  }

  /** One, two or three bytes encode 7, 11 and 16 bits of a code point. */
  lemma EncodedLength(c: char)
    ensures CharBytes(c) == 1 <==> 0 <= c as int < 128
    ensures CharBytes(c) <= 2 <==> c as int < 2048
    ensures CharBytes(c) <= 3 <==> c as int < 65536
    ensures 1 <= CharBytes(c) <= 4
  {
  }

  /** Values that are not both numbers are equal exactly when they are the same value. */
  lemma OthersCompare(l: Value, r: Value, lUint: bool, rUint: bool)
    requires !(IsNumeric(l) && IsNumeric(r))
    ensures ApplyCompare(EQ, l, r, lUint, rUint) == Bool(l == r)
    ensures ApplyCompare(NEQ, l, r, lUint, rUint) == Bool(l != r)
  {
  }

  /** A comparison fails exactly on an unknown operator and on an ordering of neither two numbers nor two strings. */
  lemma CompareFails(op: Value, l: Value, r: Value, lUint: bool, rUint: bool)
    ensures var v := ApplyCompare(op, l, r, lUint, rUint);
            && (v.Bool? || (IsError(v) && Get(ErrorData(v), "code") == Str(TYPE_MISMATCH)))
            && (v.Bool? <==> op in {EQ, NEQ} ||
                             (op in {LT, GT, LTE, GTE} && ((IsNumeric(l) && IsNumeric(r)) || (l.Str? && r.Str?))))
  {
    hide OperandInt, LexLeq, CompareNum;
  }

  // ---------------------------------------------------------------- division and remainder

  /**
   Division is of the numbers read: an exact quotient is an integer, wrapped, another one the real
   quotient; the remainder, wrapped, has the dividend's sign and is smaller than the divisor.
   */
  lemma DivisionOfRead(a: int, b: int, aUint: bool, bUint: bool, q: int)
    requires Wide(a) && Wide(b)
    ensures var x, y := Read(a, aUint), Read(b, bUint);
            var d := ApplyArithmetic(Str("div"), Int(a), Int(b), aUint, bUint);
            && (y == 0 ==> IsError(d) && Get(ErrorData(d), "code") == Str(DIVISION_BY_ZERO))
            && (y != 0 && q * y == x ==> d.Int? && Canonical(d.i) && Congruent(d.i, q))
            && (y != 0 && !d.Int? ==> d.Flt? && d.f.Finite? && d.f.r * y as real == x as real)
  {
    hide OperandInt, Read, Signed64, Bits64;
    ReadIs(a, aUint);
    ReadIs(b, bUint);
    var x, y := Read(a, aUint), Read(b, bUint);
    DivisionIs(a, b, aUint, bUint);
    hide ApplyArithmetic;
    if y != 0 {
      if q * y == x { MultipleMod(q, y); ExactQuotient(q, y); }
      RealQuotient(x, y);
      SignedIsCanonicalRepresentative(x / y, 0);
    }
  }

  lemma DivisionIs(a: int, b: int, aUint: bool, bUint: bool)
    ensures var x, y := OperandInt(a, aUint), OperandInt(b, bUint);
            var d := ApplyArithmetic(Str("div"), Int(a), Int(b), aUint, bUint);
            && (y == 0 ==> IsError(d) && Get(ErrorData(d), "code") == Str(DIVISION_BY_ZERO))
            && (y != 0 ==> d == if x % y == 0 then Int(Signed64(x / y)) else Flt(Finite(x as real / y as real)))
  {
    hide OperandInt, Signed64, Bits64;
  }

  lemma ExactQuotient(q: int, y: int)
    requires y != 0
    ensures (q * y) / y == q
  {
    MultipleMod(q, y);
    QuotientTimesDivisor(q * y, y);
    assert ((q * y) / y - q) * y == 0;
    NoSmallMultiple((q * y) / y - q, y);
  }

  lemma RemainderOfRead(a: int, b: int, aUint: bool, bUint: bool)
    requires Wide(a) && Wide(b)
    ensures var x, y := Read(a, aUint), Read(b, bUint);
            var v := ApplyArithmetic(Str("mod"), Int(a), Int(b), aUint, bUint);
            if y == 0 then IsError(v) && Get(ErrorData(v), "code") == Str(DIVISION_BY_ZERO)
            else v.Int? && Canonical(v.i) &&
                 exists m :: Congruent(v.i, m) && IsRemainder(x, y, m)
  {
    hide OperandInt, Read, Signed64, Bits64;
    ReadIs(a, aUint);
    ReadIs(b, bUint);
    var x, y := Read(a, aUint), Read(b, bUint);
    if y != 0 {
      TruncatedRemainder(x, y);
      var m := if x < 0 then -(Abs(x) % Abs(y)) else Abs(x) % Abs(y);
      SignedIsCanonicalRepresentative(m, 0);
      assert IsRemainder(x, y, m);
    }
  }

  /** The truncated remainder; there is only one. */
  predicate IsRemainder(x: int, y: int, m: int)
    requires y != 0
  {
    Abs(m) < Abs(y) && (m == 0 || (m < 0 <==> x < 0)) && (x - m) % y == 0
  }

  lemma RemainderUnique(x: int, y: int, m: int, m': int)
    requires y != 0 && IsRemainder(x, y, m) && IsRemainder(x, y, m')
    ensures m == m'
  {
    QuotientTimesDivisor(x - m, y);
    QuotientTimesDivisor(x - m', y);
    assert ((x - m) / y - (x - m') / y) * y == m' - m;
    NoSmallMultiple((x - m) / y - (x - m') / y, y);
    NoSmallMultiple((x - m') / y - (x - m) / y, y);
  }

  // ---------------------------------------------------------------- floats

  lemma FiniteArithmetic(x: real, y: real)
    ensures AddFloats(Finite(x), Finite(y)) == Finite(x + y)
    ensures AddFloats(Finite(x), Negated(Finite(y))) == Finite(x - y)
    ensures MulFloats(Finite(x), Finite(y)) == Finite(x * y)
    ensures DivFloats(Finite(x), Finite(y)) ==
            if y != 0.0 then Finite(x / y) else if x == 0.0 then NaN else Infinite(x < 0.0)
  {
  }

  /** With a float on either side arithmetic is that of the reals; only a zero divisor leaves them. */
  lemma FloatArithmeticIsReal(l: Value, r: Value, lUint: bool, rUint: bool)
    requires (l.Flt? || r.Flt?) && (l.Int? || (l.Flt? && l.f.Finite?)) && (r.Int? || (r.Flt? && r.f.Finite?))
    ensures var x, y := if l.Int? then l.i as real else l.f.r, if r.Int? then r.i as real else r.f.r;
            && ApplyArithmetic(Str("add"), l, r, lUint, rUint) == Flt(Finite(x + y))
            && ApplyArithmetic(Str("sub"), l, r, lUint, rUint) == Flt(Finite(x - y))
            && ApplyArithmetic(Str("mul"), l, r, lUint, rUint) == Flt(Finite(x * y))
            && var d := ApplyArithmetic(Str("div"), l, r, lUint, rUint);
               d == if y != 0.0 then Flt(Finite(x / y))
                    else Flt(if x == 0.0 then NaN else Infinite(x < 0.0))
  {
    hide AddFloats, MulFloats, DivFloats, Negated, Error, OperandInt;
    FiniteArithmetic(ToFloat(l).r, ToFloat(r).r);
  }

  /** What is neither a number on both sides nor a known operator fails; a float has no remainder. */
  lemma ArithmeticFails(op: Value, l: Value, r: Value, lUint: bool, rUint: bool)
    ensures var v := ApplyArithmetic(op, l, r, lUint, rUint);
            var code := Get(ErrorData(v), "code");
            && (!IsNumeric(l) || !IsNumeric(r) ==> IsError(v) && code == Str(TYPE_MISMATCH))
            && (IsNumeric(l) && IsNumeric(r) && op !in {Str("add"), Str("sub"), Str("mul"), Str("div"), Str("mod")} ==>
                  IsError(v) && code == Str(INVALID_EXPRESSION))
            && (IsNumeric(l) && IsNumeric(r) && (l.Flt? || r.Flt?) && op == Str("mod") ==>
                  IsError(v) && code == Str(TYPE_MISMATCH))
  {
  }

  // ---------------------------------------------------------------- casts

  /** A float casts to the integer next to it toward zero, if the target type has it. */
  lemma FloatCast(r: real, t: int)
    requires if r >= 0.0 then t as real <= r < t as real + 1.0 else t as real - 1.0 < r <= t as real
    ensures ApplyNumericCast(Str("primitive/int"), Flt(Finite(r))) ==
            if INT64_MIN <= t <= INT64_MAX then Int(t) else Error(CAST_OUT_OF_RANGE, "out of range for int")
    ensures ApplyNumericCast(Str("primitive/uint"), Flt(Finite(r))) ==
            if 0 <= t <= UINT64_MAX then Int(t) else Error(CAST_OUT_OF_RANGE, "out of range for uint")
  {
    hide Error;
    assert Truncate(r) == t;
  }

  /** Every value casts to a float as the number it is; NaN and the infinities cast to no integer. */
  lemma OtherCasts(toType: Value, v: Value)
    ensures v.Int? ==> ApplyNumericCast(Str("primitive/float"), v) == Flt(Finite(v.i as real))
    ensures v.Flt? ==> ApplyNumericCast(Str("primitive/float"), v) == v
    ensures toType in {Str("primitive/int"), Str("primitive/uint")} && v.Flt? && !v.f.Finite? ==>
              Get(ErrorData(ApplyNumericCast(toType, v)), "code") == Str(CAST_OUT_OF_RANGE)
    ensures toType !in {Str("primitive/int"), Str("primitive/uint"), Str("primitive/float")} || !IsNumeric(v) ==>
              Get(ErrorData(ApplyNumericCast(toType, v)), "code") == Str(TYPE_MISMATCH)
  {
  }

  // ---------------------------------------------------------------- truth

  /** The values a condition takes for false. */
  lemma FalseValues(v: Value)
    ensures Truthy(v) <==> v !in {Null, Bool(false), Int(0), Flt(Finite(0.0)), Str(""), Arr([])}
  {
  }
}
