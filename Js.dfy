/** A model of the loosely typed JavaScript values (`unknown`) that the content
    normalisers inspect, with the handful of language operations they use:
    optional property access, nullish coalescing, truthiness and `String(v)`. */
module Js {
  import Strings
  import opened Wrappers

  /** A JavaScript number. Only integral finite values are modelled. */
  datatype JsNumber = Finite(n: int) | NaN | Infinity | NegInfinity

  /** A JSON-like JavaScript value. Objects are their own enumerable properties. */
  datatype Value =
    | Undefined
    | Null
    | Bool(b: bool)
    | Num(num: JsNumber)
    | Str(s: string)
    | Arr(elems: seq<Value>)
    | Obj(fields: map<string, Value>)

  /** An operation that either yields a value or throws a TypeError. */
  datatype Result<+T> = Ok(value: T) | TypeError

  /** `v == null` in JavaScript: null or undefined. */
  predicate IsNullish(v: Value) {
    v.Undefined? || v.Null?
  }

  /** `v?.key`: the own property `key` of an object, undefined for everything else.
      None of the keys read by the normalisers is a property of a primitive's or
      an array's prototype, so only objects can yield a defined value. */
  function Get(v: Value, key: string): (r: Value)
    ensures r != Undefined ==> v.Obj? && key in v.fields && r == v.fields[key]
    ensures v.Obj? && key in v.fields ==> r == v.fields[key]
  {
    if v.Obj? && key in v.fields then v.fields[key] else Undefined
  }

  /** `a ?? b`. */
  function Coalesce(a: Value, b: Value): (r: Value)
    ensures !IsNullish(a) ==> r == a
    ensures IsNullish(a) ==> r == b
  {
    if IsNullish(a) then b else a
  }

  /** `!!v`. */
  predicate Truthy(v: Value) {
    match v
    case Undefined => false
    case Null => false
    case Bool(b) => b
    case Num(x) => x != NaN && x != Finite(0)
    case Str(s) => s != ""
    case Arr(_) => true
    case Obj(_) => true
  }

  /** Decimal digits of a natural number, most significant first. */
  function NatToDecimal(n: nat): (r: string)
    ensures |r| > 0
    ensures forall i :: 0 <= i < |r| ==> '0' <= r[i] <= '9'
  {
    var d := ['0', '1', '2', '3', '4', '5', '6', '7', '8', '9'][n % 10];
    if n < 10 then [d] else NatToDecimal(n / 10) + [d]
  }

  /** `String(x)` for a number (integers below 10^21 print in plain decimal). */
  function NumberToString(x: JsNumber): string {
    match x
    case Finite(n) => if n < 0 then "-" + NatToDecimal(-n) else NatToDecimal(n)
    case NaN => "NaN"
    case Infinity => "Infinity"
    case NegInfinity => "-Infinity"
  }

  /** `String(v)`: arrays join their elements with commas, writing null and
      undefined elements as empty strings; plain objects print as "[object Object]". */
  function ToJsString(v: Value): (r: string)
    ensures v.Str? ==> r == v.s
    ensures v.Arr? && |v.elems| == 1 && v.elems[0].Str? ==> r == v.elems[0].s
    ensures v.Arr? && |v.elems| == 0 ==> r == ""
    ensures !v.Arr? && !v.Str? ==> r != ""
    decreases v
  {
    match v
    case Undefined => "undefined"
    case Null => "null"
    case Bool(b) => if b then "true" else "false"
    case Num(x) => NumberToString(x)
    case Str(s) => s
    case Arr(elems) =>
      Strings.Join(seq(|elems|, i requires 0 <= i < |elems| =>
                     if IsNullish(elems[i]) then "" else ToJsString(elems[i])), ",")
    case Obj(_) => "[object Object]"
  }

  /** `xs.map(f).filter(Boolean)` for a callback `f` that returns an object, or
      null (None) for an element to drop, or throws: the whole expression
      throws when the callback throws on any element. */
  function MapFilter<T, U(==)>(xs: seq<T>, f: T -> Result<Option<U>>): (r: Result<seq<U>>)
    ensures r.Ok? <==> forall i :: 0 <= i < |xs| ==> f(xs[i]).Ok?
    ensures r.Ok? ==> |r.value| <= |xs|
  {
    if xs == [] then Ok([])
    else
      var first, rest := f(xs[0]), MapFilter(xs[1..], f);
      assert forall i :: 1 <= i < |xs| ==> xs[i] == xs[1..][i - 1];
      if first.TypeError? || rest.TypeError? then TypeError
      else Ok((if first.value.Some? then [first.value.value] else []) + rest.value)
  }

  /** Every kept result is the object the callback returned for some element. */
  lemma {:induction false} MapFilterSources<T, U>(xs: seq<T>, f: T -> Result<Option<U>>)
    requires MapFilter(xs, f).Ok?
    ensures forall k :: 0 <= k < |MapFilter(xs, f).value| ==>
              exists i :: 0 <= i < |xs| && f(xs[i]) == Ok(Some(MapFilter(xs, f).value[k]))
  {
    if xs != [] {
      var r, rest := MapFilter(xs, f).value, MapFilter(xs[1..], f).value;
      MapFilterSources(xs[1..], f);
      var head := if f(xs[0]).value.Some? then [f(xs[0]).value.value] else [];
      assert r == head + rest;
      forall k | 0 <= k < |r|
        ensures exists i :: 0 <= i < |xs| && f(xs[i]) == Ok(Some(r[k]))
      {
        if k < |head| {
          assert f(xs[0]) == Ok(Some(r[k]));
        } else {
          var j :| 0 <= j < |xs[1..]| && f(xs[1..][j]) == Ok(Some(rest[k - |head|]));
          assert f(xs[j + 1]) == Ok(Some(r[k]));
        }
      }
    }
  }

  /** The kept results of a concatenation are the kept results of its parts,
      in order. */
  lemma {:induction false} MapFilterAppend<T, U>(a: seq<T>, b: seq<T>, f: T -> Result<Option<U>>)
    ensures var ra, rb, r := MapFilter(a, f), MapFilter(b, f), MapFilter(a + b, f);
      && (r.Ok? <==> ra.Ok? && rb.Ok?)
      && (r.Ok? ==> r.value == ra.value + rb.value)
  {
    if a == [] {
      assert a + b == b;
    } else {
      var ab := a + b;
      assert ab[0] == a[0];
      assert ab[1..] == a[1..] + b;
      MapFilterAppend(a[1..], b, f);
      var rest, r := MapFilter(a[1..] + b, f), MapFilter(ab, f);
      var first := f(a[0]);
      assert r.Ok? <==> first.Ok? && rest.Ok?;
      if r.Ok? {
        var head := if first.value.Some? then [first.value.value] else [];
        assert r.value == head + rest.value;
        assert MapFilter(a, f).value == head + MapFilter(a[1..], f).value;
      }
    }
  }

  /** One element gives its object, or nothing when the callback returns null. */
  lemma MapFilterOne<T, U>(x: T, f: T -> Result<Option<U>>)
    ensures MapFilter([x], f).TypeError? <==> f(x).TypeError?
    ensures f(x) == Ok(None) ==> MapFilter([x], f) == Ok([])
    ensures f(x).Ok? && f(x).value.Some? ==> MapFilter([x], f) == Ok([f(x).value.value])
  {
    assert [x][1..] == [];
    assert MapFilter([x][1..], f) == Ok([]);
    if f(x).Ok? && f(x).value.Some? {
      assert [f(x).value.value] + [] == [f(x).value.value];
    }
  }
}
