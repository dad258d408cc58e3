/**
 * JavaScript values as the endpoints and the clone script see them, with the
 * few operations on them that the code uses: truthiness, `??`, property reads,
 * `Object.keys`/`_.keys`, `_.pick` and `delete` on a copy.
 *
 * Objects keep their properties in order (an association list), because the
 * clone script takes "the first key" of an object.
 */
module Json {
  import opened Wrappers

  datatype Value =
    | Undefined
    | Null
    | Bool(b: bool)
    | Num(n: int)
    | Str(s: string)
    | Arr(elems: seq<Value>)
    | Obj(props: Props)

  datatype Prop = Prop(key: string, val: Value)

  type Props = seq<Prop>

  /** JavaScript truthiness: `undefined`, `null`, `false`, `0` and `""` are falsy. */
  predicate Truthy(v: Value) {
    match v
    case Undefined => false
    case Null => false
    case Bool(b) => b
    case Num(n) => n != 0
    case Str(s) => s != ""
    case _ => true
  }

  /** The falsy values are exactly `undefined`, `null`, `false`, `0` and `""`; every object and array is truthy. */
  lemma FalsyValues(v: Value)
    ensures !Truthy(v) <==> v in [Undefined, Null, Bool(false), Num(0), Str("")]
    ensures v.Obj? || v.Arr? ==> Truthy(v)
  {
    match v
    case Bool(b) => assert b == false ==> v == Bool(false);
    case Num(n) => assert n == 0 ==> v == Num(0);
    case Str(t) => assert t == "" ==> v == Str("");
    case _ =>
  }

  /** The values `??` replaces and whose properties cannot be read. */
  predicate Nullish(v: Value) {
    v.Undefined? || v.Null?
  }

  /** `v ?? d` */
  function Coalesce(v: Value, d: Value): (r: Value)
    ensures Nullish(v) ==> r == d
    ensures !Nullish(v) ==> r == v
  {
    if Nullish(v) then d else v
  }

  /** The keys of a property list, in order. */
  function KeysOf(props: Props): (ks: seq<string>)
    ensures |ks| == |props|
    ensures forall i :: 0 <= i < |props| ==> ks[i] == props[i].key
  {
    seq(|props|, i requires 0 <= i < |props| => props[i].key)
  }

  /** Every key of the property list is one of `keys`. */
  predicate KeysIn(props: Props, keys: seq<string>) {
    forall i :: 0 <= i < |props| ==> props[i].key in keys
  }

  lemma KeysInAppend(a: Props, b: Props, keys: seq<string>)
    requires KeysIn(a, keys) && KeysIn(b, keys)
    ensures KeysIn(a + b, keys)
  {
    forall i | 0 <= i < |a + b| ensures (a + b)[i].key in keys {
      if i >= |a| {
        assert (a + b)[i] == b[i - |a|];
      }
    }
  }

  /** Every key occurs once, as in a JavaScript object. */
  predicate WellFormed(props: Props) {
    forall i, j :: 0 <= i < j < |props| ==> props[i].key != props[j].key
  }

  /** The value stored under `key`, if the key is present. */
  function Lookup(props: Props, key: string): (r: Option<Value>)
    ensures r.Some? ==> Prop(key, r.value) in props
  {
    if |props| == 0 then None
    else if props[0].key == key then Some(props[0].val)
    else Lookup(props[1..], key)
  }

  /** A key is found exactly when it is one of the keys. */
  lemma {:induction false} LookupFound(props: Props, key: string)
    ensures Lookup(props, key).Some? <==> key in KeysOf(props)
  {
    if |props| > 0 {
      assert KeysOf(props) == [props[0].key] + KeysOf(props[1..]);
      LookupFound(props[1..], key);
    }
  }

  /** Looking up in a concatenation looks in the left part first. */
  lemma {:induction false} LookupAppend(a: Props, b: Props, key: string)
    ensures Lookup(a + b, key) == if Lookup(a, key).Some? then Lookup(a, key) else Lookup(b, key)
  {
    if |a| > 0 {
      assert (a + b)[1..] == a[1..] + b;
      LookupAppend(a[1..], b, key);
    } else {
      assert a + b == b;
    }
  }

  /** `obj.key` on an object: the value stored under `key`, `undefined` when it is missing. */
  function Member(props: Props, key: string): Value {
    Lookup(props, key).GetOr(Undefined)
  }

  /** The properties of an object; other values have none of their own here. */
  function PropsOf(v: Value): Props {
    if v.Obj? then v.props else []
  }

  /** `v[key]` for a value that is not `undefined` or `null`: a missing key reads as `undefined`. */
  function Read(v: Value, key: string): (r: Value)
    requires !Nullish(v)
    ensures Lookup(PropsOf(v), key).Some? ==> r == Lookup(PropsOf(v), key).value
    ensures Lookup(PropsOf(v), key).None? ==> r.Undefined?
  {
    Lookup(PropsOf(v), key).GetOr(Undefined)
  }

  /** A copy of the property list with every property named `key` removed (`delete copy[key]`). */
  function Without(props: Props, key: string): (r: Props)
    ensures forall p :: p in r <==> p in props && p.key != key
    ensures forall k :: Lookup(r, k) == if k == key then None else Lookup(props, k)
  {
    if |props| == 0 then []
    else
      var rest := Without(props[1..], key);
      if props[0].key == key then rest
      else
        var r := [props[0]] + rest;
        assert r[1..] == rest;
        assert forall p :: p in props <==> p == props[0] || p in props[1..];
        r
  }

  /** `_.pick(obj, keys...)`: the listed keys that are present, in the order listed. */
  function Pick(props: Props, keys: seq<string>): (r: Props)
    ensures forall k :: Lookup(r, k) == if k in keys then Lookup(props, k) else None
    ensures KeysIn(r, keys)
  {
    if |keys| == 0 then []
    else
      var rest := Pick(props, keys[1..]);
      match Lookup(props, keys[0])
      case None => rest
      case Some(v) =>
        var r := [Prop(keys[0], v)] + rest;
        assert r[1..] == rest;
        r
  }

  lemma {:induction false} WithoutWellFormed(props: Props, key: string)
    requires WellFormed(props)
    ensures WellFormed(Without(props, key))
  {
    if |props| > 0 {
      WithoutWellFormed(props[1..], key);
      var rest := Without(props[1..], key);
      forall j | 0 <= j < |rest| ensures rest[j].key != props[0].key {
        assert rest[j] in props[1..];
      }
    }
  }
}
