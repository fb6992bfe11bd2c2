/**
 * JavaScript values as the editor handles them: node data bags, parameter trees, drop payloads
 * and backend results. An object is an association list of fields in insertion order, which is
 * the order `Object.keys` and `Object.entries` report for keys that are not array indices;
 * `JUndef` is the value `undefined` stored in an array slot (a hole left by writing past the end
 * of an array). A property that is absent reads as `None`.
 */
module Json {
  import opened Wrappers

  datatype Json =
    | JUndef
    | JNull
    | JBool(b: bool)
    | JNum(n: real)
    | JStr(s: string)
    | JArr(items: seq<Json>)
    | JObj(fields: seq<Field>)

  datatype Field = Field(key: string, val: Json)

  /** The keys of an object. */
  function KeySet(fs: seq<Field>): set<string>
  {
    if fs == [] then {} else KeySet(fs[..|fs| - 1]) + {fs[|fs| - 1].key}
  }

  lemma KeySetSnoc(fs: seq<Field>, f: Field)
    ensures KeySet(fs + [f]) == KeySet(fs) + {f.key}
  {
    assert (fs + [f])[..|fs|] == fs;
  }

  /** `o[k]` on an object: the field's value, the last one written when a key repeats. */
  function Get(fs: seq<Field>, k: string): (r: Option<Json>)
    ensures r.Some? <==> k in KeySet(fs)
    ensures r.Some? ==> Field(k, r.value) in fs
  {
    if fs == [] then None
    else
      var last := fs[|fs| - 1];
      assert fs == fs[..|fs| - 1] + [last];
      KeySetSnoc(fs[..|fs| - 1], last);
      if last.key == k then Some(last.val) else Get(fs[..|fs| - 1], k)
  }

  /** A field that no later field overrides is what a read of its key returns. */
  lemma {:induction false} GetField(fs: seq<Field>, i: nat)
    requires i < |fs|
    requires forall j :: i < j < |fs| ==> fs[j].key != fs[i].key
    ensures Get(fs, fs[i].key) == Some(fs[i].val)
    decreases |fs|
  {
    if i < |fs| - 1 {
      var init := fs[..|fs| - 1];
      assert init[i] == fs[i];
      GetField(init, i);
    }
  }

  /** No key occurs twice, as in an object literal with distinct property names. */
  predicate DistinctKeys(fs: seq<Field>)
  {
    forall a, b :: 0 <= a < b < |fs| ==> fs[a].key != fs[b].key
  }

  /** Reading a property of an object literal with distinct keys gives the value written for it. */
  lemma ReadField(fs: seq<Field>, i: nat)
    requires i < |fs| && DistinctKeys(fs)
    ensures Member(Some(JObj(fs)), fs[i].key) == Defined(Some(fs[i].val))
  {
    GetField(fs, i);
  }

  /** Overwrites every field named `k` in place, keeping the order of the keys. */
  function Replace(fs: seq<Field>, k: string, v: Json): (r: seq<Field>)
    ensures |r| == |fs|
    ensures forall i :: 0 <= i < |fs| ==> r[i].key == fs[i].key
    ensures Get(r, k) == if k in KeySet(fs) then Some(v) else None
    ensures forall k' :: k' != k ==> Get(r, k') == Get(fs, k')
    ensures KeySet(r) == KeySet(fs)
  {
    if fs == [] then []
    else
      var init := fs[..|fs| - 1];
      var last := fs[|fs| - 1];
      assert fs == init + [last];
      KeySetSnoc(init, last);
      var f := if last.key == k then Field(k, v) else last;
      var r := Replace(init, k, v) + [f];
      assert r[..|r| - 1] == Replace(init, k, v);
      KeySetSnoc(Replace(init, k, v), f);
      r
  }

  /**
   * `Object.keys`: each key once, in the order it was first written. JavaScript lists array-index
   * keys such as `"1"` first, in ascending order; that ordering is not modelled.
   */
  function Keys(fs: seq<Field>): (r: seq<string>)
    ensures forall k :: k in r <==> k in KeySet(fs)
    ensures forall i, j :: 0 <= i < j < |r| ==> r[i] != r[j]
  {
    if fs == [] then []
    else
      var init := fs[..|fs| - 1];
      var last := fs[|fs| - 1];
      assert fs == init + [last];
      KeySetSnoc(init, last);
      var ks := Keys(init);
      if last.key in ks then ks else ks + [last.key]
  }

  /** `o[k] = v` on an object: an existing key keeps its place, a new key goes last. */
  function Put(fs: seq<Field>, k: string, v: Json): (r: seq<Field>)
    ensures Get(r, k) == Some(v)
    ensures forall k' :: k' != k ==> Get(r, k') == Get(fs, k')
    ensures KeySet(r) == KeySet(fs) + {k}
    ensures k in KeySet(fs) ==> |r| == |fs|
  {
    if k in KeySet(fs) then Replace(fs, k, v)
    else
      var r := fs + [Field(k, v)];
      assert r[..|r| - 1] == fs;
      KeySetSnoc(fs, Field(k, v));
      r
  }

  /** `delete o[k]`. */
  function Remove(fs: seq<Field>, k: string): (r: seq<Field>)
    ensures Get(r, k) == None
    ensures forall k' :: k' != k ==> Get(r, k') == Get(fs, k')
    ensures KeySet(r) == KeySet(fs) - {k}
    ensures |r| <= |fs|
  {
    if fs == [] then []
    else
      var init := fs[..|fs| - 1];
      var last := fs[|fs| - 1];
      assert fs == init + [last];
      KeySetSnoc(init, last);
      var rest := Remove(init, k);
      if last.key == k then rest
      else
        var r := rest + [last];
        assert r[..|r| - 1] == rest;
        KeySetSnoc(rest, last);
        r
  }

  /** `{...base, ...over}`: the fields of `over` are written over `base` one after another. */
  function Assign(base: seq<Field>, over: seq<Field>): (r: seq<Field>)
    ensures KeySet(r) == KeySet(base) + KeySet(over)
    ensures forall k :: Get(r, k) == if k in KeySet(over) then Get(over, k) else Get(base, k)
  {
    if over == [] then base
    else
      var init := over[..|over| - 1];
      var last := over[|over| - 1];
      assert over == init + [last];
      KeySetSnoc(init, last);
      Put(Assign(base, init), last.key, last.val)
  }

  /** The fields an object spread `...o` contributes; only objects are modelled as contributing any. */
  function SpreadFields(o: Option<Json>): seq<Field>
  {
    if o.Some? && o.value.JObj? then o.value.fields else []
  }

  /** A read that yields `undefined` for an absent field and for a stored `undefined`. */
  function Defined(o: Option<Json>): (r: Option<Json>)
    ensures r.Some? ==> r.value != JUndef
    ensures o.Some? && o.value != JUndef ==> r == o
  {
    if o == Some(JUndef) then None else o
  }

  /** `o.k` on a value that is neither `undefined` nor `null`: only objects have fields here. */
  function Member(o: Option<Json>, k: string): (r: Option<Json>)
    ensures r.Some? ==> r.value != JUndef
    ensures r.Some? ==> o.Some? && o.value.JObj? && Field(k, r.value) in o.value.fields
  {
    if o.Some? && o.value.JObj? then Defined(Get(o.value.fields, k)) else None
  }

  /** `a[i]` on an array; past the end it is `undefined`. */
  function Elem(o: Option<Json>, i: nat): (r: Option<Json>)
    ensures r.Some? ==> r.value != JUndef && o.Some? && o.value.JArr? && i < |o.value.items|
  {
    if o.Some? && o.value.JArr? && i < |o.value.items| then Defined(Some(o.value.items[i])) else None
  }

  /** JavaScript truthiness (`!!v`); `NaN` is not a value of this model. */
  predicate Truthy(o: Option<Json>)
  {
    match o
    case None => false
    case Some(v) =>
      match v
      case JUndef => false
      case JNull => false
      case JBool(b) => b
      case JNum(n) => n != 0.0
      case JStr(s) => s != ""
      case JArr(_) => true
      case JObj(_) => true
  }

  /** `v === undefined || v === null`. */
  predicate IsNullish(o: Option<Json>)
  {
    o.None? || o.value == JUndef || o.value == JNull
  }

  /**
   * `a === b`. Primitives compare by value; two arrays or objects reached along different paths
   * are different references, so they are never strictly equal here.
   */
  predicate StrictEquals(a: Option<Json>, b: Option<Json>)
  {
    var x := Defined(a);
    var y := Defined(b);
    if x.None? || y.None? then x.None? && y.None?
    else
      match x.value
      case JNull => y.value == JNull
      case JBool(p) => y.value == JBool(p)
      case JNum(n) => y.value == JNum(n)
      case JStr(s) => y.value == JStr(s)
      case _ => false
  }

  /** `Array.isArray(v)`. */
  predicate IsArray(o: Option<Json>)
  {
    o.Some? && o.value.JArr?
  }

  /** The elements of an array, or none for any other value. */
  function ItemsOf(o: Option<Json>): seq<Json>
  {
    if o.Some? && o.value.JArr? then o.value.items else []
  }

  /** The value of an object literal with the given fields. */
  function Obj(fs: seq<Field>): Option<Json>
  {
    Some(JObj(fs))
  }

  /** Decimal digits of a natural number, as `String(n)` writes it. */
  function NatToString(n: nat): (r: string)
    ensures |r| >= 1
    ensures forall i :: 0 <= i < |r| ==> '0' <= r[i] <= '9'
    decreases n
  {
    var d := ['0' + (n % 10) as char];
    if n < 10 then d else NatToString(n / 10) + d
  }
}
