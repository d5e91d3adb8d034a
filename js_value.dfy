/**
 * JavaScript values as they appear in a rich-text document tree (the JSON
 * content of the editor after JSON.parse): primitives, arrays and plain
 * objects.  An object is the sequence of its own properties in insertion
 * order, as Object.entries and for...in visit them.
 */
module JsValue {

  datatype Value =
    | Undefined
    | Null
    | Bool(b: bool)
    | Num(n: real)
    | Str(s: string)
    | Arr(elems: seq<Value>)
    | Obj(fields: seq<Field>)

  datatype Field = Field(key: string, val: Value)

  /** The exception a property read on `undefined` or `null` throws. */
  datatype JsError = TypeError

  /** `typeof x === "object" && x !== null`. */
  predicate IsObjectLike(x: Value) {
    x.Arr? || x.Obj?
  }

  predicate IsNullish(x: Value) {
    x.Undefined? || x.Null?
  }

  function Keys(fs: seq<Field>): (ks: set<string>)
    ensures forall k :: k in ks <==> exists f :: f in fs && f.key == k
  {
    if fs == [] then {} else {fs[0].key} + Keys(fs[1..])
  }

  /** No two properties of the object share a key, as with every JavaScript object. */
  predicate DistinctKeys(fs: seq<Field>) {
    forall i, j :: 0 <= i < j < |fs| ==> fs[i].key != fs[j].key
  }

  /** Every object reachable in the tree has distinct keys. */
  predicate WellFormed(v: Value) {
    match v
    case Obj(fs) => DistinctKeys(fs) && forall f | f in fs :: WellFormed(f.val)
    case Arr(es) => forall e | e in es :: WellFormed(e)
    case _ => true
  }

  /** `o[k]` on an object: the bound value, or undefined when k is not a key. */
  function Get(fs: seq<Field>, k: string): (r: Value)
    ensures k in Keys(fs) ==> Field(k, r) in fs
    ensures k !in Keys(fs) ==> r == Undefined
  {
    if fs == [] then Undefined
    else if fs[0].key == k then fs[0].val
    else Get(fs[1..], k)
  }

  /** `x.k` on a value that is not nullish: only objects have these properties. */
  function Prop(x: Value, k: string): (r: Value)
    requires !IsNullish(x)
    ensures x.Obj? ==> r == Get(x.fields, k)
    ensures !x.Obj? ==> r == Undefined
  {
    if x.Obj? then Get(x.fields, k) else Undefined
  }

  /** `o[k] = x`: an existing key keeps its position, a new key goes last. */
  function Put(fs: seq<Field>, k: string, x: Value): (r: seq<Field>)
    ensures Get(r, k) == x
    ensures forall k' :: k' != k ==> Get(r, k') == Get(fs, k')
    ensures forall i :: 0 <= i < |r| && r[i].key == k ==> r[i].val == x
    ensures forall f :: f in r ==> f in fs || f == Field(k, x)
    ensures forall f :: f in r && f.key == k ==> f.val == x
  {
    if k in Keys(fs) then Replace(fs, k, x)
    else
      GetAppend(fs, Field(k, x));
      fs + [Field(k, x)]
  }

  lemma {:induction false} GetAppend(fs: seq<Field>, f: Field)
    ensures forall k :: Get(fs + [f], k) == if k in Keys(fs) then Get(fs, k) else Get([f], k)
  {
    if fs != [] {
      GetAppend(fs[1..], f);
      assert (fs + [f])[1..] == fs[1..] + [f];
    }
  }

  /** Every binding of k now holds x; nothing else moves. */
  function Replace(fs: seq<Field>, k: string, x: Value): (r: seq<Field>)
    ensures |r| == |fs| && forall i :: 0 <= i < |r| ==> r[i] == if fs[i].key == k then Field(k, x) else fs[i]
    ensures k in Keys(fs) ==> Get(r, k) == x
    ensures forall k' :: k' != k ==> Get(r, k') == Get(fs, k')
  {
    if fs == [] then []
    else
      var head := if fs[0].key == k then Field(k, x) else fs[0];
      var rest := Replace(fs[1..], k, x);
      var r := [head] + rest;
      assert r[0] == head && r[1..] == rest;
      r
  }

  /** `delete o[k]`. */
  function Delete(fs: seq<Field>, k: string): (r: seq<Field>)
    ensures Get(r, k) == Undefined
    ensures forall k' :: k' != k ==> Get(r, k') == Get(fs, k')
    ensures forall f :: f in r ==> f in fs && f.key != k
  {
    if fs == [] then []
    else if fs[0].key == k then Delete(fs[1..], k)
    else [fs[0]] + Delete(fs[1..], k)
  }
}
