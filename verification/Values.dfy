/**
 The value and entity model of the compute extension.

 A content hash is modelled by the entity it addresses: `Hash(e)` is the reference
 an entity's data holds to `e`.  This makes hashing injective and, because datatype
 values are finite trees, reference chains acyclic.  Byte strings that address nothing
 are `Bytes`.  Python dictionaries are `Rec`, live `Entity` objects inside a value are `Ent`.
 */
module Values {

  datatype Option<+T> = None | Some(value: T)

  /** Finite floats carry an exact real. */
  datatype Float = Finite(r: real) | NaN | Infinite(negative: bool)

  datatype Value =
    | Null
    | Bool(b: bool)
    | Int(i: int)
    | Flt(f: Float)
    | Str(s: string)
    | Bytes(raw: seq<int>)
    | Hash(target: Entity)
    | Arr(elems: seq<Value>)
    | Rec(fields: map<string, Value>)
    | Ent(entity: Entity)

  /** Compute's own type names are constructors, every other type is `Named`. */
  datatype Type =
    | Literal | LookupScope | LookupTree | LookupHash | Apply | If | Let | Lambda
    | Arithmetic | Compare | Logic | Field | Construct | Index | Length | NumericCast
    | Closure | ScopeValue | ResultValue | ErrorValue
    | Subgraph | InstallRequest | InstallResult
    | Named(name: string)

  datatype Entity = Entity(typ: Type, data: Value)

  type Scope = map<string, Value>

  function TypeNamed(s: string): Type {
    if s == "compute/error" then ErrorValue
    else if s == "compute/closure" then Closure
    else if s == "compute/scope" then ScopeValue
    else if s == "compute/result" then ResultValue
    else if s == "compute/literal" then Literal
    else if s == "compute/lookup/scope" then LookupScope
    else if s == "compute/lookup/tree" then LookupTree
    else if s == "compute/lookup/hash" then LookupHash
    else if s == "compute/apply" then Apply
    else if s == "compute/if" then If
    else if s == "compute/let" then Let
    else if s == "compute/lambda" then Lambda
    else if s == "compute/arithmetic" then Arithmetic
    else if s == "compute/compare" then Compare
    else if s == "compute/logic" then Logic
    else if s == "compute/field" then Field
    else if s == "compute/construct" then Construct
    else if s == "compute/index" then Index
    else if s == "compute/length" then Length
    else if s == "compute/numeric-cast" then NumericCast
    else if s == "system/compute/subgraph" then Subgraph
    else if s == "system/compute/install-request" then InstallRequest
    else if s == "system/compute/install-result" then InstallResult
    else Named(s)
  }

  /** The name of a type. */
  function NameOf(t: Type): string {
    match t
    case ErrorValue => "compute/error"
    case Closure => "compute/closure"
    case ScopeValue => "compute/scope"
    case ResultValue => "compute/result"
    case Literal => "compute/literal"
    case LookupScope => "compute/lookup/scope"
    case LookupTree => "compute/lookup/tree"
    case LookupHash => "compute/lookup/hash"
    case Apply => "compute/apply"
    case If => "compute/if"
    case Let => "compute/let"
    case Lambda => "compute/lambda"
    case Arithmetic => "compute/arithmetic"
    case Compare => "compute/compare"
    case Logic => "compute/logic"
    case Field => "compute/field"
    case Construct => "compute/construct"
    case Index => "compute/index"
    case Length => "compute/length"
    case NumericCast => "compute/numeric-cast"
    case Subgraph => "system/compute/subgraph"
    case InstallRequest => "system/compute/install-request"
    case InstallResult => "system/compute/install-result"
    case Named(name) => name
  }

  /** A type knows its name, so different names are different types. */
  lemma NameOfTypeNamed(s: string)
    ensures NameOf(TypeNamed(s)) == s
  {
  }

  predicate IsValueType(t: Type) {
    t.Closure? || t.ScopeValue? || t.ResultValue? || t.ErrorValue?
  }

  predicate IsExpressionType(t: Type) {
    !IsValueType(t) && !t.Subgraph? && !t.InstallRequest? && !t.InstallResult? && !t.Named?
  }

  predicate IsResolvableType(t: Type) {
    !t.Named?
  }

  /** `entity.data.get(key)`; a missing key reads as null. */
  function Get(v: Value, key: string): Value {
    if v.Rec? && key in v.fields then v.fields[key] else Null
  }

  function GetOr(v: Value, key: string, default: Value): Value {
    if v.Rec? && key in v.fields then v.fields[key] else default
  }

  /** The type of an entity-like value: an entity, or a record with a `type` key. */
  function TypeOf(v: Value): Option<Type> {
    match v
    case Ent(e) => Some(e.typ)
    case Rec(m) => if "type" in m && m["type"].Str? then Some(TypeNamed(m["type"].s)) else None
    case _ => None
  }

  function DataOf(v: Value): Value {
    match v
    case Ent(e) => e.data
    case Rec(_) => Get(v, "data")
    case _ => Null
  }

  // ---------------------------------------------------------------- errors as values

  const BUDGET_EXHAUSTED := "budget_exhausted"
  const DEPTH_EXCEEDED := "depth_exceeded"
  const CASCADE_LIMIT := "cascade_limit"
  const TYPE_MISMATCH := "type_mismatch"
  const DIVISION_BY_ZERO := "division_by_zero"
  const NOT_FOUND := "not_found"
  const UNKNOWN_TYPE := "unknown_type"
  const MISSING_ARGUMENT := "missing_argument"
  const INVALID_EXPRESSION := "invalid_expression"
  const PERMISSION_DENIED := "permission_denied"
  const INDEX_OUT_OF_RANGE := "index_out_of_range"
  const CAST_OUT_OF_RANGE := "cast_out_of_range"
  const COUNT_OUT_OF_RANGE := "count_out_of_range"
  const SCOPE_UNREACHABLE := "scope_unreachable"

  predicate IsError(v: Value) {
    TypeOf(v) == Some(ErrorValue)
  }

  /** The `data` map of an error in either representation. */
  function ErrorData(v: Value): Value {
    match v
    case Ent(e) => if e.data.Rec? then e.data else Rec(map[])
    case Rec(m) => var d := GetOr(v, "data", v); if d.Rec? then d else Rec(map[])
    case _ => Rec(map[])
  }

  /** A minted error is a record with `type` and `data`; its message is a diagnostic only. */
  function Error(code: string, message: string): (v: Value)
    ensures IsError(v)
    ensures Get(ErrorData(v), "code") == Str(code)
    ensures NoLive(v) && Refs(v) == {}
  {
    var data := Rec(map["code" := Str(code), "message" := Str(message)]);
    var v := Rec(map["type" := Str("compute/error"), "data" := data]);
    assert v.fields["type"] == Str("compute/error");
    assert v.fields["data"] == data;
    assert Refs(data) == {};
    v
  }

  predicate IsShortCircuitLimit(v: Value) {
    IsError(v) &&
    var code := Get(ErrorData(v), "code");
    code == Str(BUDGET_EXHAUSTED) || code == Str(CASCADE_LIMIT)
  }

  /** The materialized form of an error: content over `code` alone. */
  function CodeOnly(v: Value): Entity {
    Entity(ErrorValue, Rec(map["code" := GetOr(ErrorData(v), "code", Str(""))]))
  }

  predicate Truthy(v: Value) {
    match v
    case Null => false
    case Bool(b) => b
    case Int(i) => i != 0
    case Flt(f) => f != Finite(0.0)
    case Str(s) => s != ""
    case Arr(es) => es != []
    case _ => true
  }

  predicate IsBytes(v: Value) {
    v.Hash? || v.Bytes?
  }

  /** Values Python cannot use as a dictionary key. */
  predicate Unhashable(v: Value) {
    v.Arr? || v.Rec? || v.Ent?
  }

  // ---------------------------------------------------------------- references

  /** Every hash reference inside a value, at any container depth. */
  function Refs(v: Value): set<Entity> {
    match v
    case Hash(e) => {e}
    case Arr(es) => set i, e | 0 <= i < |es| && e in Refs(es[i]) :: e
    case Rec(m) => set k, e | k in m && e in Refs(m[k]) :: e
    case _ => {}
  }

  /** References are acyclic: whatever a value refers to is smaller than the value. */
  lemma {:induction false} RefsDecrease(v: Value, e: Entity)
    requires e in Refs(v)
    ensures v decreases to e
  {
    match v
    case Hash(_) =>
    case Arr(es) =>
      var i :| 0 <= i < |es| && e in Refs(es[i]);
      RefsDecrease(es[i], e);
    case Rec(m) =>
      var k :| k in m && e in Refs(m[k]);
      RefsDecrease(m[k], e);
    case _ =>
  }

  /** No live entity object anywhere inside: the value can be encoded. */
  predicate NoLive(v: Value) {
    match v
    case Arr(es) => forall i | 0 <= i < |es| :: NoLive(es[i])
    case Rec(m) => forall k | k in m :: NoLive(m[k])
    case Ent(_) => false
    case _ => true
  }

  // ---------------------------------------------------------------- paths

  /** Collapses runs of '/' into one. */
  function CollapseSlashes(p: string): string {
    if |p| <= 1 then p
    else if p[0] == '/' && p[1] == '/' then CollapseSlashes(p[1..])
    else [p[0]] + CollapseSlashes(p[1..])
  }

  function StripTrailingSlashes(p: string): string {
    if |p| > 0 && p[|p| - 1] == '/' then StripTrailingSlashes(p[..|p| - 1]) else p
  }

  function CleanPath(p: string): string {
    StripTrailingSlashes(CollapseSlashes(p))
  }

  /** The path a tree lookup reads under a subgraph root; None when the field is not a string. */
  function LookupPath(e: Entity, root: string): Option<string> {
    var p := GetOr(e.data, "path", Str(""));
    if !p.Str? then None
    else if Get(e.data, "relative") == Bool(true) && root != "" then Some(CleanPath(root + "/" + p.s))
    else Some(p.s)
  }

  // ---------------------------------------------------------------- canonical key order

  /** How many bytes UTF-8 encodes a character in. */
  function CharBytes(c: char): nat {
    if c as int < 0x80 then 1 else if c as int < 0x800 then 2 else if c as int < 0x10000 then 3 else 4
  }

  /** The length of the UTF-8 encoding. */
  function ByteLength(s: string): nat {
    if s == "" then 0 else CharBytes(s[0]) + ByteLength(s[1..])
  }

  lemma {:induction false} AsciiLength(s: string)
    requires forall i | 0 <= i < |s| :: s[i] as int < 0x80
    ensures ByteLength(s) == |s|
  {
    if s != "" { AsciiLength(s[1..]); }
  }

  /** Lexicographic order by code point, which is the byte order of the UTF-8 encodings. */
  predicate LexLeq(a: string, b: string) {
    a == "" || (b != "" && (a[0] < b[0] || (a[0] == b[0] && LexLeq(a[1..], b[1..]))))
  }

  /** Length-first order of encoded keys, section 4.2.3 of RFC 8949. */
  predicate KeyLeq(a: string, b: string) {
    ByteLength(a) < ByteLength(b) || (ByteLength(a) == ByteLength(b) && LexLeq(a, b))
  }

  lemma {:induction false} LexTotal(a: string, b: string)
    ensures LexLeq(a, b) || LexLeq(b, a)
    ensures LexLeq(a, b) && LexLeq(b, a) ==> a == b
  {
    if a != "" && b != "" {
      LexTotal(a[1..], b[1..]);
      assert a == [a[0]] + a[1..] && b == [b[0]] + b[1..];
    }
  }

  lemma {:induction false} LexTransitive(a: string, b: string, c: string)
    requires LexLeq(a, b) && LexLeq(b, c)
    ensures LexLeq(a, c)
  {
    if a != "" && a[0] == b[0] == c[0] { LexTransitive(a[1..], b[1..], c[1..]); }
  }

  lemma KeyTotal(a: string, b: string)
    ensures KeyLeq(a, b) || KeyLeq(b, a)
    ensures KeyLeq(a, b) && KeyLeq(b, a) ==> a == b
  {
    LexTotal(a, b);
  }

  lemma KeyTransitive(a: string, b: string, c: string)
    requires KeyLeq(a, b) && KeyLeq(b, c)
    ensures KeyLeq(a, c)
  {
    if LexLeq(a, b) && LexLeq(b, c) { LexTransitive(a, b, c); }
  }

  predicate IsLeastKey(k: string, keys: set<string>) {
    k in keys && forall x | x in keys :: KeyLeq(k, x)
  }

  lemma {:induction false} LeastKeyExists(keys: set<string>)
    requires keys != {}
    ensures exists k :: IsLeastKey(k, keys)
    decreases |keys|
  {
    var x :| x in keys;
    KeyTotal(x, x);
    if keys == {x} {
      assert IsLeastKey(x, keys);
    } else {
      var rest := keys - {x};
      assert keys == rest + {x};
      LeastKeyExists(rest);
      var k :| IsLeastKey(k, rest);
      KeyTotal(x, k);
      if KeyLeq(x, k) {
        forall y | y in keys ensures KeyLeq(x, y) { if y != x { KeyTransitive(x, k, y); } }
        assert IsLeastKey(x, keys);
      } else {
        assert IsLeastKey(k, keys);
      }
    }
  }

  lemma LeastKeyUnique(keys: set<string>)
    ensures forall a, b | IsLeastKey(a, keys) && IsLeastKey(b, keys) :: a == b
  {
    forall a, b | IsLeastKey(a, keys) && IsLeastKey(b, keys) ensures a == b { KeyTotal(a, b); }
  }

  /** The keys of a map in canonical order. */
  function CanonicalKeys(keys: set<string>): (s: seq<string>)
    ensures forall k :: k in s <==> k in keys
    ensures |s| == |keys|
    decreases |keys|
  {
    if keys == {} then [] else
      LeastKeyExists(keys);
      LeastKeyUnique(keys);
      var k :| k in keys && IsLeastKey(k, keys);
      [k] + CanonicalKeys(keys - {k})
  }

  /** Canonical order is strictly increasing, so it is the same on every peer. */
  lemma {:induction false} CanonicalKeysSorted(keys: set<string>)
    ensures var s := CanonicalKeys(keys);
            forall i, j | 0 <= i < j < |s| :: KeyLeq(s[i], s[j]) && s[i] != s[j]
    decreases |keys|
  {
    if keys != {} {
      var s := CanonicalKeys(keys);
      CanonicalKeysSorted(keys - {s[0]});
      assert s[1..] == CanonicalKeys(keys - {s[0]});
      forall i, j | 0 <= i < j < |s| ensures KeyLeq(s[i], s[j]) && s[i] != s[j] {
        assert s[j] == s[1..][j - 1] && s[j] in s[1..];
        if i > 0 { assert s[i] == s[1..][i - 1]; }
      }
    }
  }

  /** No other strictly increasing sequence lists the same keys. */
  lemma {:induction false} CanonicalKeysUnique(keys: set<string>, s: seq<string>)
    requires forall k :: k in s <==> k in keys
    requires forall i, j | 0 <= i < j < |s| :: KeyLeq(s[i], s[j]) && s[i] != s[j]
    ensures CanonicalKeys(keys) == s
    decreases |s|
  {
    hide KeyLeq;
    if s == [] {
      assert forall k :: k in s <==> k in keys;
    } else {
      var k, rest := s[0], s[1..];
      KeyTotal(k, k);
      forall x | x in keys ensures KeyLeq(k, x) {
        var i :| 0 <= i < |s| && s[i] == x;
      }
      assert IsLeastKey(k, keys);
      LeastKeyUnique(keys);
      assert k !in rest;
      CanonicalKeysUnique(keys - {k}, rest);
      assert s == [k] + rest;
    }
  }
}
