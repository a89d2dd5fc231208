/**
 * Document values as the engine sees them after `JSON.parse`: a tree of
 * objects, arrays and scalars. A missing key is JavaScript's `undefined`.
 */
module Json {
  import opened Wrappers
  import opened Strings

  /**
   * A JSON value. Numbers are kept as integers: the engine only tests them
   * for truthiness, and never does arithmetic on them.
   */
  datatype Value =
    | Null
    | Bool(b: bool)
    | Num(n: int)
    | Str(s: string)
    | Obj(props: map<string, Value>)
    | Arr(elems: seq<Value>)

  /** `typeof v === 'object' && v !== null` (arrays included). */
  predicate IsObject(v: Value) {
    v.Obj? || v.Arr?
  }

  /** JavaScript truthiness. */
  predicate Truthy(v: Value) {
    match v
    case Null => false
    case Bool(b) => b
    case Num(n) => n != 0
    case Str(s) => s != ""
    case _ => true
  }

  /** Truthiness of a property read that may be `undefined`. */
  predicate TruthyOpt(v: Option<Value>) {
    v.Some? && Truthy(v.value)
  }

  /**
   * `key in v`, for the own data of an object or array: the keys of an
   * object, the canonical indices of an array. Nothing else has keys.
   */
  predicate Has(v: Value, key: string) {
    match v
    case Obj(m) => key in m
    case Arr(s) => IsIndexKey(key) && DigitsValue(key) < |s|
    case _ => false
  }

  /** `v[key]`, or `None` (undefined) when `key` is not a key of `v`. */
  function Lookup(v: Value, key: string): (r: Option<Value>)
    ensures r.Some? <==> Has(v, key)
    ensures r.Some? && v.Obj? ==> r.value == v.props[key]
    ensures r.Some? && v.Arr? ==> r.value == v.elems[DigitsValue(key)]
  {
    match v
    case Obj(m) => if key in m then Some(m[key]) else None
    case Arr(s) => if IsIndexKey(key) && DigitsValue(key) < |s| then Some(s[DigitsValue(key)]) else None
    case _ => None
  }

  /** `k` copies of `null`: the holes an assignment past the end of an array leaves. */
  function Nulls(k: nat): (r: seq<Value>)
    ensures |r| == k && forall i :: 0 <= i < k ==> r[i] == Null
  {
    if k == 0 then [] else Nulls(k - 1) + [Null]
  }

  /**
   * `v[key] = x` on an object or array. An object gains or overwrites the
   * key. An array is written at an index (growing it, with holes read as
   * `null`, when the index is past the end); any other key becomes a
   * property that is not part of the JSON value, so the value is unchanged.
   */
  function Put(v: Value, key: string, x: Value): (r: Value)
    requires IsObject(v)
    ensures r.Obj? == v.Obj? && r.Arr? == v.Arr?
    ensures v.Obj? || IsIndexKey(key) ==> Lookup(r, key) == Some(x)
    ensures v.Arr? && !IsIndexKey(key) ==> r == v
  {
    match v
    case Obj(m) => Obj(m[key := x])
    case Arr(s) =>
      if !IsIndexKey(key) then v
      else
        var k := DigitsValue(key);
        if k < |s| then Arr(s[k := x]) else Arr(s + Nulls(k - |s|) + [x])
  }

  /** Writing one key leaves every other key of the container as it was. */
  lemma PutOther(v: Value, key: string, x: Value, other: string)
    requires IsObject(v) && other != key && Has(v, other)
    ensures Lookup(Put(v, key, x), other) == Lookup(v, other)
  {
    if v.Arr? && IsIndexKey(key) && DigitsValue(key) == DigitsValue(other) {
      IndexKeyInjective(key, other);
    }
  }

  /** Writing a key back with the value it already holds changes nothing. */
  lemma PutSame(v: Value, key: string)
    requires IsObject(v) && Has(v, key)
    ensures Put(v, key, Lookup(v, key).value) == v
  {
    if v.Obj? {
      assert v.props[key := v.props[key]] == v.props;
    }
  }

  /**
   * The value at a sequence of keys: each step needs an object or array
   * holding the key (`current && typeof current === 'object' && key in
   * current`); otherwise the read is `undefined`.
   */
  function GetPath(v: Value, keys: seq<string>): Option<Value>
    decreases |keys|
  {
    if keys == [] then Some(v)
    else if IsObject(v) && Has(v, keys[0]) then GetPath(Lookup(v, keys[0]).value, keys[1..])
    else None
  }

  /** Reading one key further down a path. */
  lemma {:induction false} GetPathSnoc(v: Value, keys: seq<string>, k: string)
    ensures GetPath(v, keys + [k]) ==
      match GetPath(v, keys)
      case None => None
      case Some(w) => if IsObject(w) && Has(w, k) then Lookup(w, k) else None
    decreases |keys|
  {
    if keys == [] {
      assert [] + [k] == [k];
      assert [k][1..] == [];
    } else if IsObject(v) && Has(v, keys[0]) {
      assert (keys + [k])[1..] == keys[1..] + [k];
      GetPathSnoc(Lookup(v, keys[0]).value, keys[1..], k);
    }
  }
}
