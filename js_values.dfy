/**
 * The JavaScript values the client-side validators see, with the parts of the
 * language's semantics they depend on: property access, truthiness, loose
 * equality (`==`, `!=`) and relational comparison (`<`, `>`, `<=`, `>=`).
 *
 * Numbers are integers. A string converts to a number only when it is empty
 * (0) or a plain run of decimal digits; objects and arrays are not converted
 * to primitives. Objects keep their properties in insertion order. A string's
 * `length`, indices and order count its UTF-16 code units.
 */
module JsValues {
  import opened Wrappers
  import opened Strings

  datatype Value =
    | Undefined
    | Null
    | Bool(b: bool)
    | Num(n: int)
    | Str(s: string)
    | Arr(items: seq<Value>)
    | Obj(fields: seq<Field>)

  datatype Field = Field(key: string, value: Value)

  /** What JavaScript code throws: a validation error, a TypeError, or a constructor this model leaves out. */
  datatype JsError =
    | ValidationError(name: Value, message: Value, subErrors: seq<JsError>)
    | TypeError
    | Unmodelled(constructorName: string)

  /** Nesting depth of arrays and objects; the measure parsing recurses on. */
  function Depth(v: Value): nat
    decreases v, 1
  {
    match v
    case Arr(xs) => 1 + MaxDepth(xs)
    case Obj(fs) => 1 + MaxFieldDepth(fs)
    case _ => 0
  }

  function MaxDepth(xs: seq<Value>): (d: nat)
    ensures forall i :: 0 <= i < |xs| ==> Depth(xs[i]) <= d
    decreases xs, 0
  {
    if xs == [] then 0
    else
      var rest := MaxDepth(xs[1..]);
      assert forall i :: 1 <= i < |xs| ==> xs[i] == xs[1..][i - 1];
      if Depth(xs[0]) > rest then Depth(xs[0]) else rest
  }

  function MaxFieldDepth(fs: seq<Field>): (d: nat)
    ensures forall i :: 0 <= i < |fs| ==> Depth(fs[i].value) <= d
    decreases fs, 0
  {
    if fs == [] then 0
    else
      var rest := MaxFieldDepth(fs[1..]);
      assert forall i :: 1 <= i < |fs| ==> fs[i] == fs[1..][i - 1];
      if Depth(fs[0].value) > rest then Depth(fs[0].value) else rest
  }

  predicate IsNullish(v: Value)
  {
    v.Undefined? || v.Null?
  }

  /** JavaScript truthiness. */
  predicate Truthy(v: Value)
  {
    match v
    case Undefined => false
    case Null => false
    case Bool(b) => b
    case Num(n) => n != 0
    case Str(s) => s != ""
    case _ => true
  }

  /** The value of the first property named `key`. */
  function Lookup(fs: seq<Field>, key: string): (r: Option<Value>)
    ensures r.Some? ==> exists i :: 0 <= i < |fs| && fs[i].key == key && fs[i].value == r.value
    ensures r.None? ==> forall i :: 0 <= i < |fs| ==> fs[i].key != key
  {
    if fs == [] then None
    else if fs[0].key == key then Some(fs[0].value)
    else
      var r := Lookup(fs[1..], key);
      assert forall i :: 1 <= i < |fs| ==> fs[i] == fs[1..][i - 1];
      r
  }

  /** The first property with a given name is the one found. */
  lemma {:induction false} LookupFirst(fs: seq<Field>, key: string, i: nat)
    requires i < |fs| && fs[i].key == key
    requires forall j :: 0 <= j < i ==> fs[j].key != key
    ensures Lookup(fs, key) == Some(fs[i].value)
  {
    if i > 0 {
      assert forall j :: 0 <= j < i - 1 ==> fs[1..][j] == fs[j + 1];
      LookupFirst(fs[1..], key, i - 1);
    }
  }

  /** A property name that denotes an array index: decimal digits without a leading zero. */
  function ArrayIndex(key: string): Option<nat>
  {
    match ParseNat(key)
    case Some(i) => if key[0] != '0' || key == "0" then Some(i) else None
    case None => None
  }

  /** A UTF-16 code unit that is half of a surrogate pair. */
  predicate IsSurrogate(u: int)
  {
    0xD800 <= u < 0xE000
  }

  /**
   * The UTF-16 code units JavaScript stores for one character: the character
   * itself inside the Basic Multilingual Plane, a high and a low surrogate
   * beyond it.
   */
  function CodeUnits(c: char): (r: seq<int>)
    ensures |r| == (if c as int < 0x10000 then 1 else 2)
    ensures forall j :: 0 <= j < |r| ==> 0 <= r[j] < 0x10000
    ensures |r| == 1 ==> r[0] == c as int && !IsSurrogate(r[0])
    ensures |r| == 2 ==> 0xD800 <= r[0] < 0xDC00 && 0xDC00 <= r[1] < 0xE000
  {
    var n := c as int;
    if n < 0x10000 then [n]
    else [0xD800 + (n - 0x10000) / 0x400, 0xDC00 + (n - 0x10000) % 0x400]
  }

  /** A surrogate pair decodes back to its character, so the code units determine the character. */
  lemma CodeUnitsDecode(c: char)
    ensures var r := CodeUnits(c);
            c as int == (if |r| == 1 then r[0] else 0x10000 + (r[0] - 0xD800) * 0x400 + (r[1] - 0xDC00))
  {
  }

  /** A string's UTF-16 code units, which JavaScript's `length`, indices and `<` count. */
  function Utf16(s: string): (r: seq<int>)
    ensures |r| >= |s|
  {
    if s == [] then [] else CodeUnits(s[0]) + Utf16(s[1..])
  }

  /** The code units of a concatenation are the two strings' code units in turn. */
  lemma {:induction false} Utf16Append(a: string, b: string)
    ensures Utf16(a + b) == Utf16(a) + Utf16(b)
  {
    if a == [] {
      assert a + b == b;
    } else {
      var ab := a + b;
      assert ab[0] == a[0] && ab[1..] == a[1..] + b;
      Utf16Append(a[1..], b);
      calc {
        Utf16(ab);
        CodeUnits(a[0]) + Utf16(a[1..] + b);
        CodeUnits(a[0]) + (Utf16(a[1..]) + Utf16(b));
        Utf16(a) + Utf16(b);
      }
    }
  }

  /** A string's length in code units equals its number of characters exactly when none lies beyond the Basic Multilingual Plane. */
  lemma {:induction false} Utf16LengthBmp(s: string)
    ensures |Utf16(s)| == |s| <==> forall i :: 0 <= i < |s| ==> s[i] as int < 0x10000
  {
    if s != [] {
      Utf16LengthBmp(s[1..]);
      assert forall i :: 1 <= i < |s| ==> s[i] == s[1..][i - 1];
    }
  }

  /** Distinct strings have distinct code units, so comparing code units is comparing strings. */
  lemma {:induction false} Utf16Injective(a: string, b: string)
    ensures Utf16(a) == Utf16(b) <==> a == b
  {
    if a != [] && b != [] && Utf16(a) == Utf16(b) {
      var ua, ub := CodeUnits(a[0]), CodeUnits(b[0]);
      assert |ua| == |ub| by {
        assert Utf16(a)[0] == ua[0] && Utf16(b)[0] == ub[0];
      }
      assert ua == Utf16(a)[..|ua|] == Utf16(b)[..|ub|] == ub;
      CodeUnitsDecode(a[0]);
      CodeUnitsDecode(b[0]);
      assert a[0] == b[0];
      assert Utf16(a[1..]) == Utf16(a)[|ua|..] == Utf16(b)[|ub|..] == Utf16(b[1..]);
      Utf16Injective(a[1..], b[1..]);
      assert a == [a[0]] + a[1..] && b == [b[0]] + b[1..];
    }
  }

  /**
   * The string `s[i]` for a code-unit index `i`: the one-unit string of that
   * unit. A unit that is half of a surrogate pair stands for the whole
   * character, since a lone surrogate is not a character here.
   */
  function UnitAt(s: string, i: nat): (r: string)
    requires i < |Utf16(s)|
    ensures |r| == 1
    ensures !IsSurrogate(Utf16(s)[i]) ==> Utf16(r) == [Utf16(s)[i]]
  {
    var w := |CodeUnits(s[0])|;
    if i < w then [s[0]] else UnitAt(s[1..], i - w)
  }

  /**
   * `v[key]`: throws a TypeError on undefined and null; arrays and strings
   * have `length` and their indices, counted in code units for strings;
   * booleans and numbers have no own properties. Properties inherited from
   * prototypes are not modelled.
   */
  function Get(v: Value, key: string): (r: Result<Value, JsError>)
    ensures r.Err? <==> IsNullish(v)
    ensures r.Err? ==> r.error == TypeError
    ensures r.Ok? ==> Depth(r.value) <= Depth(v)
    ensures r.Ok? && v.Obj? ==> r.value == Lookup(v.fields, key).GetOr(Undefined)
    ensures v.Str? && key == "length" ==> r == Ok(Num(|Utf16(v.s)|))
  {
    match v
    case Undefined => Err(TypeError)
    case Null => Err(TypeError)
    case Obj(fs) => Ok(Lookup(fs, key).GetOr(Undefined))
    case Arr(xs) =>
      if key == "length" then Ok(Num(|xs|))
      else (
        match ArrayIndex(key)
        case Some(i) => if i < |xs| then Ok(xs[i]) else Ok(Undefined)
        case None => Ok(Undefined))
    case Str(s) =>
      if key == "length" then Ok(Num(|Utf16(s)|))
      else (
        match ArrayIndex(key)
        case Some(i) => if i < |Utf16(s)| then Ok(Str(UnitAt(s, i))) else Ok(Undefined)
        case None => Ok(Undefined))
    case _ => Ok(Undefined)
  }

  /** JavaScript `String(v)`, the property key a value stands for. */
  function PropertyKey(v: Value): string
    decreases v, 1
  {
    match v
    case Undefined => "undefined"
    case Null => "null"
    case Bool(b) => if b then "true" else "false"
    case Num(n) => IntToString(n)
    case Str(s) => s
    case Arr(xs) => JoinKeys(xs)
    case Obj(_) => "[object Object]"
  }

  /** `Array.prototype.join(",")`, where undefined and null elements print as "". */
  function JoinKeys(xs: seq<Value>): string
    decreases xs, 0
  {
    if xs == [] then ""
    else
      var first := if IsNullish(xs[0]) then "" else PropertyKey(xs[0]);
      if |xs| == 1 then first else first + "," + JoinKeys(xs[1..])
  }

  /** JavaScript `Number(v)`; None stands for NaN. */
  function ToNumber(v: Value): Option<int>
  {
    match v
    case Undefined => None
    case Null => Some(0)
    case Bool(b) => Some(if b then 1 else 0)
    case Num(n) => Some(n)
    case Str(s) => if s == "" then Some(0) else (match ParseNat(s) case Some(k) => Some(k) case None => None)
    case _ => None
  }

  /** The number `n` loosely equals the non-nullish value `b`. */
  predicate NumberLooselyEquals(n: int, b: Value)
  {
    match b
    case Bool(x) => n == (if x then 1 else 0)
    case Num(m) => n == m
    case Str(_) => ToNumber(b) == Some(n)
    case _ => false
  }

  /**
   * JavaScript `a == b`. Undefined and null equal each other only; booleans
   * and strings compared with numbers are converted to numbers; two objects
   * are equal when they are the same value.
   */
  predicate LooseEquals(a: Value, b: Value)
  {
    if IsNullish(a) || IsNullish(b) then IsNullish(a) && IsNullish(b)
    else if a.Bool? then NumberLooselyEquals(if a.b then 1 else 0, b)
    else if b.Bool? then NumberLooselyEquals(if b.b then 1 else 0, a)
    else if a.Num? then NumberLooselyEquals(a.n, b)
    else if b.Num? then NumberLooselyEquals(b.n, a)
    else if a.Str? && b.Str? then a.s == b.s
    else (a.Arr? || a.Obj?) && (b.Arr? || b.Obj?) && a == b
  }

  /** Loose equality is symmetric and, between values of one primitive type, is plain equality. */
  lemma LooseEqualsSymmetric(a: Value, b: Value)
    ensures LooseEquals(a, b) == LooseEquals(b, a)
    ensures (a.Num? && b.Num?) || (a.Str? && b.Str?) || (a.Bool? && b.Bool?) ==> (LooseEquals(a, b) <==> a == b)
  {
  }

  /** Lexicographic order of two code-unit sequences, a proper prefix first. */
  predicate UnitsLess(a: seq<int>, b: seq<int>)
  {
    if a == [] then b != []
    else if b == [] then false
    else if a[0] != b[0] then a[0] < b[0]
    else UnitsLess(a[1..], b[1..])
  }

  /** `<` on two strings compares their UTF-16 code units, not their code points. */
  predicate StrLess(a: string, b: string)
  {
    UnitsLess(Utf16(a), Utf16(b))
  }

  /** String order is strict: no string precedes itself, and of two distinct strings exactly one comes first. */
  lemma {:induction false} UnitsLessTotal(a: seq<int>, b: seq<int>)
    ensures !UnitsLess(a, a)
    ensures a != b ==> (UnitsLess(a, b) <==> !UnitsLess(b, a))
  {
    if a != [] {
      UnitsLessTotal(a[1..], a[1..]);
      if b != [] && a[0] == b[0] {
        UnitsLessTotal(a[1..], b[1..]);
        if a[1..] == b[1..] {
          assert a == [a[0]] + a[1..] && b == [b[0]] + b[1..];
        }
      }
    }
  }

  /**
   * A character beyond the Basic Multilingual Plane starts with a high
   * surrogate, so "\U{1F600}" is two units long and sorts before "\U{FFFD}",
   * although its code point is larger.
   */
  lemma NonBmpStrings()
    ensures Get(Str("\U{1F600}"), "length") == Ok(Num(2))
    ensures StrLess("\U{1F600}", "\U{FFFD}") && !StrLess("\U{FFFD}", "\U{1F600}")
  {
  }

  /** JavaScript `a < b`; None when the comparison is undefined (a NaN operand). */
  function JsLess(a: Value, b: Value): Option<bool>
  {
    if a.Str? && b.Str? then Some(StrLess(a.s, b.s))
    else
      match (ToNumber(a), ToNumber(b))
      case (Some(x), Some(y)) => Some(x < y)
      case _ => None
  }

  predicate Lt(a: Value, b: Value) { JsLess(a, b) == Some(true) }
  predicate Gt(a: Value, b: Value) { JsLess(b, a) == Some(true) }
  predicate Le(a: Value, b: Value) { JsLess(b, a) == Some(false) }
  predicate Ge(a: Value, b: Value) { JsLess(a, b) == Some(false) }

  /** On numbers the four comparisons are the integer orderings. */
  lemma ComparisonsOnNumbers(x: int, y: int)
    ensures Lt(Num(x), Num(y)) <==> x < y
    ensures Gt(Num(x), Num(y)) <==> x > y
    ensures Le(Num(x), Num(y)) <==> x <= y
    ensures Ge(Num(x), Num(y)) <==> x >= y
  {
  }

  /** Every comparison with undefined is false. */
  lemma ComparisonsWithUndefined(a: Value)
    ensures !Lt(a, Undefined) && !Gt(a, Undefined) && !Le(a, Undefined) && !Ge(a, Undefined)
  {
  }
}
