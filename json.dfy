/** Small failure-compatible wrappers used throughout the model. */
module Wrappers {
  datatype Option<+T> = None | Some(value: T)

  datatype Result<+T, +E> = Success(value: T) | Failure(error: E)
}

/**
 * JSON documents as Python's `json` module decodes them, with Python's
 * truthiness, Python's `str()` on scalars, path lookup, and the
 * "assign each element under its key" loop every builder uses.
 */
module JsonTree {
  import opened Wrappers

  /** A decoded JSON value. Objects are dictionaries: key order is not modelled. */
  datatype Json =
    | JNull
    | JBool(b: bool)
    | JInt(i: int)
    | JStr(s: string)
    | JList(items: seq<Json>)
    | JObj(fields: map<string, Json>)

  /** The empty object `{}`. */
  const Empty: Json := JObj(map[])

  /** Python truthiness: None, False, 0, "", [] and {} are falsy. */
  predicate Truthy(j: Json) {
    match j
    case JNull => false
    case JBool(b) => b
    case JInt(i) => i != 0
    case JStr(s) => s != ""
    case JList(items) => items != []
    case JObj(fields) => fields != map[]
  }

  predicate IsScalar(j: Json) {
    !j.JList? && !j.JObj?
  }

  /** A JSON value whose Python `str()` the model renders. */
  type Scalar = j: Json | IsScalar(j) witness JNull

  /** `dict.get(k)`: the value under `k`, or None when the key is missing. */
  function Get(m: map<string, Json>, k: string): Json {
    if k in m then m[k] else JNull
  }

  // ---------------------------------------------------------------------
  // Decimal rendering: Python's str() of an int, and its inverse.
  // ---------------------------------------------------------------------

  function DigitChar(d: nat): char
    requires d < 10
  {
    "0123456789"[d]
  }

  /** The decimal digits of `n`, most significant first, without leading zeros. */
  function Digits(n: nat): (s: string)
    ensures |s| > 0
    ensures forall k :: 0 <= k < |s| ==> '0' <= s[k] <= '9'
    ensures s[0] == '0' ==> n == 0
    decreases n
  {
    if n < 10 then [DigitChar(n)] else Digits(n / 10) + [DigitChar(n % 10)]
  }

  /** Python's `str(n)` for an int: an optional '-' followed by the digits. */
  function DecimalString(n: int): string {
    if n < 0 then "-" + Digits(-n) else Digits(n)
  }

  function DigitValue(c: char): nat {
    if '0' <= c <= '9' then (c - '0') as nat else 0
  }

  function ParseDigits(s: string): nat
    decreases |s|
  {
    if s == [] then 0 else ParseDigits(s[..|s| - 1]) * 10 + DigitValue(s[|s| - 1])
  }

  function ParseDecimal(s: string): int {
    if |s| > 0 && s[0] == '-' then -(ParseDigits(s[1..]) as int) else ParseDigits(s)
  }

  lemma {:induction false} DigitsRoundTrip(n: nat)
    ensures ParseDigits(Digits(n)) == n
    decreases n
  {
    if n >= 10 {
      var s := Digits(n);
      assert s[..|s| - 1] == Digits(n / 10);
      DigitsRoundTrip(n / 10);
    }
  }

  lemma ParseSigned(d: string)
    ensures ParseDecimal("-" + d) == -(ParseDigits(d) as int)
  {
    assert ("-" + d)[1..] == d;
  }

  lemma ParseUnsigned(d: string)
    requires |d| > 0 && '0' <= d[0] <= '9'
    ensures ParseDecimal(d) == ParseDigits(d)
  {
  }

  /** `int(str(n)) == n`: the rendering loses nothing. */
  lemma {:induction false} DecimalRoundTrip(n: int)
    ensures ParseDecimal(DecimalString(n)) == n
  {
    if n < 0 {
      var m: nat := -n;
      var d := Digits(m);
      assert DecimalString(n) == "-" + d;
      DigitsRoundTrip(m);
      ParseSigned(d);
    } else {
      var m: nat := n;
      var d := Digits(m);
      assert DecimalString(n) == d;
      DigitsRoundTrip(m);
      ParseUnsigned(d);
    }
  }

  /** Distinct integers render to distinct decimal strings. */
  lemma DecimalInjective(a: int, b: int)
    ensures DecimalString(a) == DecimalString(b) <==> a == b
  {
    DecimalRoundTrip(a);
    DecimalRoundTrip(b);
  }

  /** Python's `str()` of a scalar JSON value. */
  function PyStr(j: Scalar): string {
    match j
    case JNull => "None"
    case JBool(b) => if b then "True" else "False"
    case JInt(i) => DecimalString(i)
    case JStr(s) => s
  }

  // ---------------------------------------------------------------------
  // Paths into a tree.
  // ---------------------------------------------------------------------

  /** The node reached from `j` by following the object keys of `path`, if every key exists. */
  function At(j: Json, path: seq<string>): Option<Json>
    decreases |path|
  {
    if path == [] then Some(j)
    else if j.JObj? && path[0] in j.fields then At(j.fields[path[0]], path[1..])
    else None
  }

  /** One step down a path. */
  lemma AtCons(j: Json, k: string, rest: seq<string>)
    ensures At(j, [k] + rest) == if j.JObj? && k in j.fields then At(j.fields[k], rest) else None
  {
    assert ([k] + rest)[0] == k;
    assert ([k] + rest)[1..] == rest;
  }

  lemma {:induction false} AtConcat(j: Json, p: seq<string>, q: seq<string>)
    ensures At(j, p + q) == if At(j, p).Some? then At(At(j, p).value, q) else None
    decreases |p|
  {
    if p == [] {
      assert p + q == q;
    } else {
      assert (p + q)[0] == p[0];
      assert (p + q)[1..] == p[1..] + q;
      if j.JObj? && p[0] in j.fields {
        AtConcat(j.fields[p[0]], p[1..], q);
      }
    }
  }

  // ---------------------------------------------------------------------
  // `for x in xs: node[key(x)] = value(x)`
  // ---------------------------------------------------------------------

  /**
   * The object produced by assigning `value(x)` under `key(x)` for each
   * element of `xs` in turn, starting from `{}`.
   */
  function AssignAll<T>(xs: seq<T>, key: T -> string, value: T -> Json): map<string, Json>
    decreases |xs|
  {
    if xs == [] then map[]
    else
      var last := xs[|xs| - 1];
      AssignAll(xs[..|xs| - 1], key, value)[key(last) := value(last)]
  }

  function Identity(s: string): string { s }

  function EmptyFor(s: string): Json { Empty }

  /** The keys of the elements of `xs`. */
  function KeysOf<T>(xs: seq<T>, key: T -> string): set<string> {
    set i | 0 <= i < |xs| :: key(xs[i])
  }

  /** No element after position `i` has the same key as `xs[i]`. */
  predicate LastWithKey<T>(xs: seq<T>, key: T -> string, i: int) {
    0 <= i < |xs| && forall j :: i < j < |xs| ==> key(xs[j]) != key(xs[i])
  }

  /** The loop creates exactly one entry per distinct key. */
  lemma {:induction false} AssignAllKeys<T>(xs: seq<T>, key: T -> string, value: T -> Json)
    ensures AssignAll(xs, key, value).Keys == KeysOf(xs, key)
    decreases |xs|
  {
    if xs != [] {
      var init := xs[..|xs| - 1];
      AssignAllKeys(init, key, value);
      forall k | k in KeysOf(xs, key)
        ensures k in KeysOf(init, key) + {key(xs[|xs| - 1])}
      {
        var i :| 0 <= i < |xs| && key(xs[i]) == k;
        if i < |xs| - 1 {
          assert init[i] == xs[i];
        }
      }
      forall k | k in KeysOf(init, key)
        ensures k in KeysOf(xs, key)
      {
        var i :| 0 <= i < |init| && key(init[i]) == k;
        assert xs[i] == init[i];
      }
    }
  }

  /** A later element with the same key replaces an earlier one entirely. */
  lemma {:induction false} AssignAllLast<T>(xs: seq<T>, key: T -> string, value: T -> Json, i: int)
    requires LastWithKey(xs, key, i)
    ensures key(xs[i]) in AssignAll(xs, key, value)
    ensures AssignAll(xs, key, value)[key(xs[i])] == value(xs[i])
    decreases |xs|
  {
    var init := xs[..|xs| - 1];
    if i < |xs| - 1 {
      assert LastWithKey(init, key, i) by {
        forall j | i < j < |init| ensures key(init[j]) != key(init[i]) {
          assert init[j] == xs[j];
        }
      }
      AssignAllLast(init, key, value, i);
    }
  }

  /** Every entry holds the value of the last element with its key. */
  lemma {:induction false} AssignAllLookup<T>(xs: seq<T>, key: T -> string, value: T -> Json, k: string)
    requires k in AssignAll(xs, key, value)
    ensures exists i :: LastWithKey(xs, key, i) && key(xs[i]) == k && AssignAll(xs, key, value)[k] == value(xs[i])
    decreases |xs|
  {
    var init := xs[..|xs| - 1];
    var n := |xs| - 1;
    if key(xs[n]) == k {
      assert LastWithKey(xs, key, n);
    } else {
      AssignAllLookup(init, key, value, k);
      var i :| LastWithKey(init, key, i) && key(init[i]) == k && AssignAll(init, key, value)[k] == value(init[i]);
      assert xs[i] == init[i];
      assert LastWithKey(xs, key, i) by {
        forall j | i < j < |xs| ensures key(xs[j]) != key(xs[i]) {
          if j < n { assert xs[j] == init[j]; }
        }
      }
    }
  }

  /** When every element maps to the same value, every entry holds that value. */
  lemma AssignAllConstant<T>(xs: seq<T>, key: T -> string, value: T -> Json, v: Json)
    requires forall x :: value(x) == v
    ensures forall k :: k in AssignAll(xs, key, value) ==> AssignAll(xs, key, value)[k] == v
  {
    forall k | k in AssignAll(xs, key, value)
      ensures AssignAll(xs, key, value)[k] == v
    {
      AssignAllLookup(xs, key, value, k);
    }
  }

  /** The object `{x: {} for x in xs}` holds {} under exactly the members of `xs`. */
  lemma KeySetLookup(xs: seq<string>, k: string)
    ensures At(JObj(AssignAll(xs, Identity, EmptyFor)), [k]) == if k in xs then Some(Empty) else None
  {
    AtCons(JObj(AssignAll(xs, Identity, EmptyFor)), k, []);
    AssignAllKeys(xs, Identity, EmptyFor);
    AssignAllConstant(xs, Identity, EmptyFor, Empty);
    if k in xs {
      var i :| 0 <= i < |xs| && xs[i] == k;
      assert Identity(xs[i]) == k;
    }
  }
}
