/**
 * Mentions inside a rich-text document tree: findAllValuesByKey collects the
 * `attrs.user_id` of every node whose `type` is "mention" (the todo form and
 * the note add form carry the same copy), and convertMentionsToText turns
 * every mention node into a plain text node.
 */
module RichText {
  import opened Wrappers
  import opened JsValue

  const MentionTag: Value := Str("mention")

  /** The entry `type: "mention"` that the search looks for. */
  predicate IsMentionEntry(f: Field) {
    f.key == "type" && f.val == MentionTag
  }

  /** Children count plus one: the measure that lets a node's walk call its own entries. */
  function Width(v: Value): nat {
    match v
    case Obj(fs) => |fs| + 1
    case Arr(es) => |es| + 1
    case _ => 0
  }

  /** The union of two partial results; the first exception wins. */
  function Join(a: Result<set<Value>, JsError>, b: Result<set<Value>, JsError>): Result<set<Value>, JsError> {
    if a.Err? then a else if b.Err? then b else Ok(a.value + b.value)
  }

  /** What one entry of node fs contributes by itself: `obj.attrs.user_id`, which throws when attrs is nullish. */
  function EntryId(fs: seq<Field>, f: Field): Result<set<Value>, JsError> {
    if !IsMentionEntry(f) then Ok({})
    else
      var attrs := Get(fs, "attrs");
      if IsNullish(attrs) then Err(TypeError) else Ok({Prop(attrs, "user_id")})
  }

  /** The set findAllValuesByKey returns for v, or the exception it throws. */
  function MentionIds(v: Value): Result<set<Value>, JsError>
    decreases v, Width(v)
  {
    match v
    case Obj(fs) => FieldsMentionIds(v, |fs|)
    case Arr(es) => ElemsMentionIds(v, |es|)
    case _ => Ok({})
  }

  /** The first n entries of object o, each searched in turn. */
  function FieldsMentionIds(o: Value, n: nat): Result<set<Value>, JsError>
    requires o.Obj? && n <= |o.fields|
    decreases o, n
  {
    if n == 0 then Ok({})
    else
      var f := o.fields[n - 1];
      Join(Join(FieldsMentionIds(o, n - 1), EntryId(o.fields, f)), MentionIds(f.val))
  }

  /** The first n elements of array a, each searched in turn. */
  function ElemsMentionIds(a: Value, n: nat): Result<set<Value>, JsError>
    requires a.Arr? && n <= |a.elems|
    decreases a, n
  {
    if n == 0 then Ok({}) else Join(ElemsMentionIds(a, n - 1), MentionIds(a.elems[n - 1]))
  }

  lemma {:induction false} FieldsErrPersists(o: Value, n: nat, m: nat)
    requires o.Obj? && n <= m <= |o.fields| && FieldsMentionIds(o, n).Err?
    ensures FieldsMentionIds(o, m) == FieldsMentionIds(o, n)
    decreases m
  {
    if n < m { FieldsErrPersists(o, n, m - 1); }
  }

  lemma {:induction false} ElemsErrPersists(a: Value, n: nat, m: nat)
    requires a.Arr? && n <= m <= |a.elems| && ElemsMentionIds(a, n).Err?
    ensures ElemsMentionIds(a, m) == ElemsMentionIds(a, n)
    decreases m
  {
    if n < m { ElemsErrPersists(a, n, m - 1); }
  }

  /** findAllValuesByKey: a fresh set, filled by the recursive search. */
  method FindAllValuesByKey(doc: Value) returns (r: Result<set<Value>, JsError>)
    ensures r == MentionIds(doc)
    ensures r.Ok? ==> forall id :: id in r.value ==> exists n :: IsMentionNodeWithId(doc, n, id)
    ensures r.Ok? ==> forall n, id :: IsMentionNodeWithId(doc, n, id) ==> id in r.value
    ensures r.Err? <==> exists n :: Reachable(doc, n) && IsBrokenMention(n)
  {
    r := Search(doc, {});
    SearchThrowsIff(doc);
    assert MentionIds(doc).Ok? ==> {} + MentionIds(doc).value == MentionIds(doc).value;
    if r.Ok? {
      forall id | id in r.value ensures exists n :: IsMentionNodeWithId(doc, n, id) {
        IdsComeFromMentionNodes(doc, id);
      }
      forall n, id | IsMentionNodeWithId(doc, n, id) ensures id in r.value {
        MentionNodesFound(doc, n, id);
      }
    }
  }

  /** The inner `search`: adds to `results` every id found in obj, walking Object.entries in order. */
  method Search(obj: Value, results: set<Value>) returns (r: Result<set<Value>, JsError>)
    ensures r == Join(Ok(results), MentionIds(obj))
    decreases obj, Width(obj)
  {
    if obj.Obj? {
      r := SearchFields(obj, results);
    } else if obj.Arr? {
      r := SearchElems(obj, results);
    } else {
      assert results + {} == results;
      r := Ok(results);
    }
  }

  /** `search` on an object: each entry is tested for `type: "mention"`, then searched itself. */
  method SearchFields(obj: Value, results: set<Value>) returns (r: Result<set<Value>, JsError>)
    requires obj.Obj?
    ensures r == Join(Ok(results), MentionIds(obj))
    decreases obj, |obj.fields|
  {
    var fs := obj.fields;
    assert MentionIds(obj) == FieldsMentionIds(obj, |fs|);
    var acc := results;
    var i := 0;
    while i < |fs|
      invariant 0 <= i <= |fs|
      invariant FieldsMentionIds(obj, i).Ok?
      invariant acc == results + FieldsMentionIds(obj, i).value
    {
      var step := SearchEntry(obj, i, acc);
      FieldsStep(obj, i);
      if step.Err? {
        FieldsErrPersists(obj, i + 1, |fs|);
        return step;
      }
      acc := step.value;
      i := i + 1;
    }
    return Ok(acc);
  }

  /** One entry of `search` on an object: the mention test on it, then the search of its value. */
  method SearchEntry(obj: Value, i: nat, acc: set<Value>) returns (r: Result<set<Value>, JsError>)
    requires obj.Obj? && i < |obj.fields|
    ensures r == Join(Join(Ok(acc), EntryId(obj.fields, obj.fields[i])), MentionIds(obj.fields[i].val))
    decreases obj, 0
  {
    var f := obj.fields[i];
    var own := EntryStep(obj.fields, f);
    if own.Err? {
      return own;
    }
    r := Search(f.val, acc + own.value);
  }

  /** The test `key === "type" && value === "mention"` on one entry, and the `obj.attrs.user_id` read it guards. */
  method EntryStep(fs: seq<Field>, f: Field) returns (r: Result<set<Value>, JsError>)
    ensures r == EntryId(fs, f)
  {
    r := Ok({});
    if f.key == "type" && f.val == Str("mention") {
      var attrs := Get(fs, "attrs");
      if IsNullish(attrs) {
        r := Err(TypeError);
      } else {
        r := Ok({Prop(attrs, "user_id")});
      }
    }
  }

  lemma FieldsStep(o: Value, i: nat)
    requires o.Obj? && i < |o.fields|
    ensures FieldsMentionIds(o, i + 1)
         == Join(Join(FieldsMentionIds(o, i), EntryId(o.fields, o.fields[i])), MentionIds(o.fields[i].val))
  {
  }

  /** `search` on an array: Object.entries yields index keys, never "type", so only the elements are searched. */
  method SearchElems(obj: Value, results: set<Value>) returns (r: Result<set<Value>, JsError>)
    requires obj.Arr?
    ensures r == Join(Ok(results), MentionIds(obj))
    decreases obj, |obj.elems|
  {
    var es := obj.elems;
    assert MentionIds(obj) == ElemsMentionIds(obj, |es|);
    var acc := results;
    var i := 0;
    while i < |es|
      invariant 0 <= i <= |es|
      invariant ElemsMentionIds(obj, i).Ok?
      invariant acc == results + ElemsMentionIds(obj, i).value
    {
      if IsObjectLike(es[i]) {
        var sub := Search(es[i], acc);
        if sub.Err? {
          ElemsErrPersists(obj, i + 1, |es|);
          return sub;
        }
        acc := sub.value;
      }
      i := i + 1;
    }
    return Ok(acc);
  }

  /** Node n, reachable from v, is a mention whose attrs.user_id is id. */
  ghost predicate IsMentionNodeWithId(v: Value, n: Value, id: Value) {
    Reachable(v, n) && n.Obj? && (exists f | f in n.fields :: IsMentionEntry(f)) &&
    !IsNullish(Get(n.fields, "attrs")) && Prop(Get(n.fields, "attrs"), "user_id") == id
  }

  /** n is v or lies inside v, at any depth, through arrays and objects. */
  ghost predicate Reachable(v: Value, n: Value)
    decreases v
  {
    v == n ||
    match v
    case Obj(fs) => exists f | f in fs :: Reachable(f.val, n)
    case Arr(es) => exists e | e in es :: Reachable(e, n)
    case _ => false
  }

  /** No node reachable in v carries the entry `type: "mention"`. */
  predicate NoMentions(v: Value) {
    match v
    case Obj(fs) => forall f | f in fs :: !IsMentionEntry(f) && NoMentions(f.val)
    case Arr(es) => forall e | e in es :: NoMentions(e)
    case _ => true
  }

  lemma {:induction false} GetOfDistinct(fs: seq<Field>, f: Field)
    requires DistinctKeys(fs) && f in fs
    ensures Get(fs, f.key) == f.val
  {
    if fs[0] != f {
      assert f in fs[1..];
      assert fs[0].key != f.key by {
        var j :| 0 <= j < |fs| && fs[j] == f;
      }
      GetOfDistinct(fs[1..], f);
    }
  }

  /** Every id collected comes from a reachable mention node. */
  lemma {:induction false} IdsComeFromMentionNodes(v: Value, id: Value)
    requires MentionIds(v).Ok? && id in MentionIds(v).value
    ensures exists n :: IsMentionNodeWithId(v, n, id)
    decreases v, Width(v)
  {
    match v
    case Obj(fs) => FieldsIdsComeFromMentionNodes(v, |fs|, id);
    case Arr(es) => ElemsIdsComeFromMentionNodes(v, |es|, id);
  }

  lemma {:induction false} FieldsIdsComeFromMentionNodes(o: Value, n: nat, id: Value)
    requires o.Obj? && n <= |o.fields|
    requires FieldsMentionIds(o, n).Ok? && id in FieldsMentionIds(o, n).value
    ensures exists m :: IsMentionNodeWithId(o, m, id)
    decreases o, n
  {
    var f := o.fields[n - 1];
    if FieldsMentionIds(o, n - 1).Ok? && id in FieldsMentionIds(o, n - 1).value {
      FieldsIdsComeFromMentionNodes(o, n - 1, id);
    } else if EntryId(o.fields, f).Ok? && id in EntryId(o.fields, f).value {
      assert f in o.fields;
      assert IsMentionNodeWithId(o, o, id);
    } else {
      IdsComeFromMentionNodes(f.val, id);
      var m :| IsMentionNodeWithId(f.val, m, id);
      assert f in o.fields;
      assert Reachable(o, m);
      assert IsMentionNodeWithId(o, m, id);
    }
  }

  lemma {:induction false} ElemsIdsComeFromMentionNodes(a: Value, n: nat, id: Value)
    requires a.Arr? && n <= |a.elems|
    requires ElemsMentionIds(a, n).Ok? && id in ElemsMentionIds(a, n).value
    ensures exists m :: IsMentionNodeWithId(a, m, id)
    decreases a, n
  {
    if ElemsMentionIds(a, n - 1).Ok? && id in ElemsMentionIds(a, n - 1).value {
      ElemsIdsComeFromMentionNodes(a, n - 1, id);
    } else {
      var e := a.elems[n - 1];
      IdsComeFromMentionNodes(e, id);
      var m :| IsMentionNodeWithId(e, m, id);
      assert e in a.elems;
      assert Reachable(a, m);
      assert IsMentionNodeWithId(a, m, id);
    }
  }

  /** Both values are objects, both arrays, or neither. */
  predicate SameKind(a: Value, b: Value) {
    (a.Obj? <==> b.Obj?) && (a.Arr? <==> b.Arr?)
  }

  /**
   * `convertMentionsToText`: a node whose `type` is "mention" gets `text` set to
   * `attrs.id`, `type` set to "text" and `attrs` deleted; then every property
   * that holds an object or array (including the new `text`) is converted.
   */
  function Convert(v: Value): (r: Result<Value, JsError>)
    ensures IsNullish(v) ==> r.Err?
    ensures r.Ok? ==> SameKind(v, r.value)
    ensures !IsNullish(v) && !IsObjectLike(v) ==> r == Ok(v)
    decreases v, 1
  {
    match v
    case Undefined => Err(TypeError)
    case Null => Err(TypeError)
    case Obj(fs) =>
      if Get(fs, "type") != MentionTag then ConvertNode(v, fs)
      else
        var node := MentionNode(fs);
        if node.Err? then Err(node.error) else ConvertNode(v, node.value)
    case Arr(es) =>
      ConvertArray(v)
    case _ => Ok(v)
  }

  function ConvertArray(v: Value): (r: Result<Value, JsError>)
    requires v.Arr?
    ensures r.Ok? ==> r.value.Arr?
    decreases v, 0, |v.elems| + 1
  {
    var c := ConvertElems(v, v.elems);
    if c.Err? then Err(c.error) else Ok(Arr(c.value))
  }

  /** The properties of the node, after any mention rewrite, converted one by one. */
  function ConvertNode(v: Value, node: seq<Field>): (r: Result<Value, JsError>)
    requires v.Obj?
    requires node == v.fields || (!IsNullish(Get(v.fields, "attrs")) && node == RewriteMention(v.fields, Prop(Get(v.fields, "attrs"), "id")))
    ensures r.Ok? ==> r.value.Obj?
    decreases v, 0, |node| + 1
  {
    ChildrenSmaller(v, v.fields, node);
    var c := ConvertFields(v, node);
    if c.Err? then Err(c.error) else Ok(Obj(c.value))
  }

  /** The rewrite of one mention node; reading `attrs.id` throws when attrs is nullish. */
  function MentionNode(fs: seq<Field>): (r: Result<seq<Field>, JsError>)
    ensures r.Err? <==> IsNullish(Get(fs, "attrs"))
    ensures r.Ok? ==> r.value == RewriteMention(fs, Prop(Get(fs, "attrs"), "id"))
  {
    var attrs := Get(fs, "attrs");
    if IsNullish(attrs) then Err(TypeError) else Ok(RewriteMention(fs, Prop(attrs, "id")))
  }

  /** `text = id; type = "text"; delete attrs`, on the properties of one node. */
  function RewriteMention(fs: seq<Field>, id: Value): (r: seq<Field>)
    ensures Get(r, "type") == Str("text") && Get(r, "text") == id && Get(r, "attrs") == Undefined
    ensures forall k :: k != "type" && k != "text" && k != "attrs" ==> Get(r, k) == Get(fs, k)
    ensures forall f :: f in r ==> f.key != "attrs" && (f in fs || f == Field("text", id) || f == Field("type", Str("text")))
    ensures forall f :: f in r && f.key == "type" ==> f.val == Str("text")
  {
    Delete(Put(Put(fs, "text", id), "type", Str("text")), "attrs")
  }

  /** Every object or array held by the node is strictly inside v, so converting it terminates. */
  lemma ChildrenSmaller(v: Value, fs: seq<Field>, node: seq<Field>)
    requires v == Obj(fs)
    requires node == fs || (!IsNullish(Get(fs, "attrs")) && node == RewriteMention(fs, Prop(Get(fs, "attrs"), "id")))
    ensures forall f | f in node :: IsObjectLike(f.val) ==> f.val < v
  {
    forall f | f in node && IsObjectLike(f.val) ensures f.val < v {
      if f !in fs {
        var attrs := Get(fs, "attrs");
        assert f == Field("text", Prop(attrs, "id"));
        assert attrs.Obj? && "id" in Keys(attrs.fields);
        assert Field("id", f.val) in attrs.fields;
        assert Field("attrs", attrs) in fs;
      }
    }
  }

  /** Each property in turn; values that are objects or arrays are converted, the rest kept. */
  function ConvertFields(anchor: Value, fs: seq<Field>): (r: Result<seq<Field>, JsError>)
    requires forall f | f in fs :: IsObjectLike(f.val) ==> f.val < anchor
    ensures r.Ok? ==> |r.value| == |fs|
    ensures r.Ok? ==> forall i :: 0 <= i < |fs| ==>
      r.value[i].key == fs[i].key && SameKind(fs[i].val, r.value[i].val) &&
      (!IsObjectLike(fs[i].val) ==> r.value[i].val == fs[i].val)
    decreases anchor, 0, |fs|
  {
    if fs == [] then Ok([])
    else
      assert fs[0] in fs;
      var head := if IsObjectLike(fs[0].val) then Convert(fs[0].val) else Ok(fs[0].val);
      var tail := ConvertFields(anchor, fs[1..]);
      if head.Err? then Err(head.error)
      else if tail.Err? then Err(tail.error)
      else Ok([Field(fs[0].key, head.value)] + tail.value)
  }

  /** Each element in turn; objects and arrays are converted, the rest kept. */
  function ConvertElems(anchor: Value, es: seq<Value>): (r: Result<seq<Value>, JsError>)
    requires forall e | e in es :: IsObjectLike(e) ==> e < anchor
    ensures r.Ok? ==> |r.value| == |es|
    ensures r.Ok? ==> forall i :: 0 <= i < |es| ==>
      SameKind(es[i], r.value[i]) && (!IsObjectLike(es[i]) ==> r.value[i] == es[i])
    decreases anchor, 0, |es|
  {
    if es == [] then Ok([])
    else
      var head := if IsObjectLike(es[0]) then Convert(es[0]) else Ok(es[0]);
      var tail := ConvertElems(anchor, es[1..]);
      if head.Err? then Err(head.error)
      else if tail.Err? then Err(tail.error)
      else Ok([head.value] + tail.value)
  }
  /** After a successful conversion of a well-formed document, no mention node is left. */
  lemma {:induction false} ConvertedHasNoMentions(v: Value)
    requires WellFormed(v) && Convert(v).Ok?
    ensures NoMentions(Convert(v).value)
    decreases v, 2
  {
    match v
    case Obj(fs) => ObjectHasNoMentions(v);
    case Arr(es) => ArrayHasNoMentions(v);
    case _ =>
  }

  lemma {:induction false} ObjectHasNoMentions(v: Value)
    requires v.Obj? && WellFormed(v) && Convert(v).Ok?
    ensures NoMentions(Convert(v).value)
    decreases v, 1
  {
    var fs := v.fields;
    var node := if Get(fs, "type") != MentionTag then fs else MentionNode(fs).value;
    ChildrenSmaller(v, fs, node);
    ChildrenWellFormed(v, node);
    FieldsHaveNoMentions(v, node);
    if Get(fs, "type") != MentionTag {
      UnmentionedNode(fs);
    }
    var r := ConvertFields(v, node).value;
    assert Convert(v).value == Obj(r);
    forall i | 0 <= i < |r| ensures !IsMentionEntry(r[i]) {
      assert node[i] in node;
    }
  }

  lemma {:induction false} ArrayHasNoMentions(v: Value)
    requires v.Arr? && WellFormed(v) && Convert(v).Ok?
    ensures NoMentions(Convert(v).value)
    decreases v, 1
  {
    forall e | e in v.elems && IsObjectLike(e) ensures e < v && WellFormed(e) { }
    ElemsHaveNoMentions(v, v.elems);
  }

  /** A node whose `type` is not "mention" has no entry `type: "mention"`, its keys being distinct. */
  lemma UnmentionedNode(fs: seq<Field>)
    requires DistinctKeys(fs) && Get(fs, "type") != MentionTag
    ensures forall f | f in fs :: !IsMentionEntry(f)
  {
    forall f | f in fs ensures !IsMentionEntry(f) {
      if f.key == "type" {
        GetOfDistinct(fs, f);
      }
    }
  }

  /** The node's values that are objects or arrays are well formed, the new `text` included. */
  lemma ChildrenWellFormed(v: Value, node: seq<Field>)
    requires v.Obj? && WellFormed(v)
    requires node == v.fields || (!IsNullish(Get(v.fields, "attrs")) && node == RewriteMention(v.fields, Prop(Get(v.fields, "attrs"), "id")))
    ensures forall f | f in node :: IsObjectLike(f.val) ==> WellFormed(f.val)
  {
    assert forall f | f in v.fields :: WellFormed(f.val);
    if node != v.fields {
      RewriteWellFormed(v.fields);
    }
  }

  /** The rewrite of a node whose values are well formed holds only well-formed values. */
  lemma RewriteWellFormed(fs: seq<Field>)
    requires forall f | f in fs :: WellFormed(f.val)
    requires !IsNullish(Get(fs, "attrs"))
    ensures forall f | f in RewriteMention(fs, Prop(Get(fs, "attrs"), "id")) :: IsObjectLike(f.val) ==> WellFormed(f.val)
  {
    AttrsIdWellFormed(fs);
  }

  lemma AttrsIdWellFormed(fs: seq<Field>)
    requires forall f | f in fs :: WellFormed(f.val)
    requires !IsNullish(Get(fs, "attrs"))
    ensures IsObjectLike(Prop(Get(fs, "attrs"), "id")) ==> WellFormed(Prop(Get(fs, "attrs"), "id"))
  {
    var attrs := Get(fs, "attrs");
    if attrs.Obj? && "id" in Keys(attrs.fields) {
      assert Field("attrs", attrs) in fs;
      assert WellFormed(attrs);
      assert Field("id", Get(attrs.fields, "id")) in attrs.fields;
    }
  }

  lemma {:induction false} FieldsHaveNoMentions(anchor: Value, fs: seq<Field>)
    requires forall f | f in fs :: IsObjectLike(f.val) ==> f.val < anchor && WellFormed(f.val)
    requires ConvertFields(anchor, fs).Ok?
    ensures forall f | f in ConvertFields(anchor, fs).value :: NoMentions(f.val)
    decreases anchor, 0, |fs|
  {
    if fs != [] {
      assert fs[0] in fs;
      if IsObjectLike(fs[0].val) {
        ConvertedHasNoMentions(fs[0].val);
      }
      assert forall f | f in fs[1..] :: f in fs;
      FieldsHaveNoMentions(anchor, fs[1..]);
    }
  }

  lemma {:induction false} ElemsHaveNoMentions(anchor: Value, es: seq<Value>)
    requires forall e | e in es :: IsObjectLike(e) ==> e < anchor && WellFormed(e)
    requires ConvertElems(anchor, es).Ok?
    ensures forall e | e in ConvertElems(anchor, es).value :: NoMentions(e)
    decreases anchor, 0, |es|
  {
    if es != [] {
      assert es[0] in es;
      if IsObjectLike(es[0]) {
        ConvertedHasNoMentions(es[0]);
      }
      assert forall e | e in es[1..] :: e in es;
      ElemsHaveNoMentions(anchor, es[1..]);
    }
  }
  /** A document with no mention node yields no ids. */
  lemma {:induction false} NoMentionsNoIds(v: Value)
    requires NoMentions(v)
    ensures MentionIds(v) == Ok({})
    decreases v, Width(v)
  {
    match v
    case Obj(fs) => FieldsNoIds(v, |fs|);
    case Arr(es) => ElemsNoIds(v, |es|);
    case _ =>
  }

  lemma {:induction false} FieldsNoIds(o: Value, n: nat)
    requires o.Obj? && n <= |o.fields| && NoMentions(o)
    ensures FieldsMentionIds(o, n) == Ok({})
    decreases o, n
  {
    if n > 0 {
      var f := o.fields[n - 1];
      assert f in o.fields;
      FieldsNoIds(o, n - 1);
      NoMentionsNoIds(f.val);
      var none: set<Value> := {};
      assert none + none == none;
    }
  }

  lemma {:induction false} ElemsNoIds(a: Value, n: nat)
    requires a.Arr? && n <= |a.elems| && NoMentions(a)
    ensures ElemsMentionIds(a, n) == Ok({})
    decreases a, n
  {
    if n > 0 {
      assert a.elems[n - 1] in a.elems;
      ElemsNoIds(a, n - 1);
      NoMentionsNoIds(a.elems[n - 1]);
      var none: set<Value> := {};
      assert none + none == none;
    }
  }

  /** Converting a document that has no mention node changes nothing. */
  lemma {:induction false} NoMentionsConvertIdentity(v: Value)
    requires NoMentions(v) && !IsNullish(v)
    ensures Convert(v) == Ok(v)
    decreases v, 1
  {
    match v
    case Obj(fs) =>
      if "type" in Keys(fs) {
        assert Field("type", Get(fs, "type")) in fs;
      }
      ChildrenSmaller(v, fs, fs);
      FieldsConvertIdentity(v, fs);
    case Arr(es) =>
      ElemsConvertIdentity(v, es);
    case _ =>
  }

  lemma {:induction false} FieldsConvertIdentity(anchor: Value, fs: seq<Field>)
    requires forall f | f in fs :: IsObjectLike(f.val) ==> f.val < anchor
    requires forall f | f in fs :: NoMentions(f.val)
    ensures ConvertFields(anchor, fs) == Ok(fs)
    decreases anchor, 0, |fs|
  {
    if fs != [] {
      assert fs[0] in fs;
      if IsObjectLike(fs[0].val) {
        NoMentionsConvertIdentity(fs[0].val);
      }
      assert forall f | f in fs[1..] :: f in fs;
      FieldsConvertIdentity(anchor, fs[1..]);
      assert (if IsObjectLike(fs[0].val) then Convert(fs[0].val) else Ok(fs[0].val)) == Ok(fs[0].val);
      assert [Field(fs[0].key, fs[0].val)] + fs[1..] == fs;
    }
  }

  lemma {:induction false} ElemsConvertIdentity(anchor: Value, es: seq<Value>)
    requires forall e | e in es :: IsObjectLike(e) ==> e < anchor
    requires forall e | e in es :: NoMentions(e)
    ensures ConvertElems(anchor, es) == Ok(es)
    decreases anchor, 0, |es|
  {
    if es != [] {
      assert es[0] in es;
      if IsObjectLike(es[0]) {
        NoMentionsConvertIdentity(es[0]);
      }
      assert forall e | e in es[1..] :: e in es;
      ElemsConvertIdentity(anchor, es[1..]);
      assert [es[0]] + es[1..] == es;
    }
  }

  /** Converting twice is converting once. */
  lemma ConvertIdempotent(v: Value)
    requires WellFormed(v) && Convert(v).Ok?
    ensures Convert(Convert(v).value) == Convert(v)
  {
    ConvertedHasNoMentions(v);
    NoMentionsConvertIdentity(Convert(v).value);
  }

  /** After conversion, findAllValuesByKey finds nothing. */
  lemma ConvertClearsMentionIds(v: Value)
    requires WellFormed(v) && Convert(v).Ok?
    ensures MentionIds(Convert(v).value) == Ok({})
  {
    ConvertedHasNoMentions(v);
    NoMentionsNoIds(Convert(v).value);
  }
  /** When the search over the first n entries succeeds, every one of them passed its own test and search. */
  lemma FieldsOkEach(o: Value, n: nat)
    requires o.Obj? && n <= |o.fields| && FieldsMentionIds(o, n).Ok?
    ensures forall i :: 0 <= i < n ==> EntryId(o.fields, o.fields[i]).Ok?
    ensures forall i :: 0 <= i < n ==> MentionIds(o.fields[i].val).Ok?
  {
    forall i | 0 <= i < n
      ensures EntryId(o.fields, o.fields[i]).Ok? && MentionIds(o.fields[i].val).Ok?
    {
      FieldsGrow(o, i + 1, n);
      FieldsStep(o, i);
    }
  }

  lemma {:induction false} ElemsOkEach(a: Value, n: nat)
    requires a.Arr? && n <= |a.elems| && ElemsMentionIds(a, n).Ok?
    ensures forall i :: 0 <= i < n ==> MentionIds(a.elems[i]).Ok?
    decreases n
  {
    if n > 0 {
      ElemsOkEach(a, n - 1);
    }
  }

  /**
   * When findAllValuesByKey succeeds on a well-formed document that is not
   * nullish, convertMentionsToText succeeds on it too: the todo form only
   * converts after searching.
   */
  lemma {:induction false} FindOkConvertOk(v: Value)
    requires WellFormed(v) && !IsNullish(v) && MentionIds(v).Ok?
    ensures Convert(v).Ok?
    decreases v, 2
  {
    match v
    case Obj(fs) =>
      ObjectFindOkConvertOk(v);
    case Arr(es) =>
      ElemsOkEach(v, |es|);
      forall e | e in es && IsObjectLike(e) ensures e < v && WellFormed(e) && MentionIds(e).Ok? {
        var j :| 0 <= j < |es| && es[j] == e;
      }
      ElemsConvertOk(v, es);
    case _ =>
  }

  lemma {:induction false} ObjectFindOkConvertOk(v: Value)
    requires v.Obj? && WellFormed(v) && MentionIds(v).Ok?
    ensures Convert(v).Ok?
    decreases v, 1
  {
    var fs := v.fields;
    var node := fs;
    if Get(fs, "type") == MentionTag {
      MentionNodeOk(v);
      node := MentionNode(fs).value;
    }
    ChildrenSmaller(v, fs, node);
    ChildrenWellFormed(v, node);
    ChildrenFindOk(v, node);
    FieldsConvertOk(v, node);
  }

  /** A mention node that the search passed has attrs, so its rewrite does not throw. */
  lemma MentionNodeOk(v: Value)
    requires v.Obj? && MentionIds(v).Ok? && Get(v.fields, "type") == MentionTag
    ensures MentionNode(v.fields).Ok?
  {
    var fs := v.fields;
    FieldsOkEach(v, |fs|);
    assert Field("type", MentionTag) in fs;
    var i :| 0 <= i < |fs| && fs[i] == Field("type", MentionTag);
    assert EntryId(fs, fs[i]).Ok?;
  }

  lemma ChildrenFindOk(v: Value, node: seq<Field>)
    requires v.Obj? && MentionIds(v).Ok?
    requires node == v.fields || (!IsNullish(Get(v.fields, "attrs")) && node == RewriteMention(v.fields, Prop(Get(v.fields, "attrs"), "id")))
    ensures forall f | f in node :: IsObjectLike(f.val) ==> MentionIds(f.val).Ok?
  {
    EntriesFindOk(v);
    if node != v.fields {
      AttrsIdFindOk(v);
    }
  }

  /** Each entry's value of an object whose search succeeded was searched without a throw. */
  lemma EntriesFindOk(v: Value)
    requires v.Obj? && MentionIds(v).Ok?
    ensures forall f | f in v.fields :: MentionIds(f.val).Ok?
  {
    FieldsOkEach(v, |v.fields|);
    forall f | f in v.fields ensures MentionIds(f.val).Ok? {
      var j :| 0 <= j < |v.fields| && v.fields[j] == f;
    }
  }

  /** The `attrs.id` moved into `text` was searched inside attrs, so its search succeeded. */
  lemma AttrsIdFindOk(v: Value)
    requires v.Obj? && MentionIds(v).Ok? && !IsNullish(Get(v.fields, "attrs"))
    ensures IsObjectLike(Prop(Get(v.fields, "attrs"), "id")) ==> MentionIds(Prop(Get(v.fields, "attrs"), "id")).Ok?
  {
    var attrs := Get(v.fields, "attrs");
    if attrs.Obj? && "id" in Keys(attrs.fields) {
      FieldsOkEach(v, |v.fields|);
      assert Field("attrs", attrs) in v.fields;
      var j :| 0 <= j < |v.fields| && v.fields[j] == Field("attrs", attrs);
      assert MentionIds(attrs).Ok?;
      FieldsOkEach(attrs, |attrs.fields|);
      assert Field("id", Get(attrs.fields, "id")) in attrs.fields;
      var k :| 0 <= k < |attrs.fields| && attrs.fields[k] == Field("id", Get(attrs.fields, "id"));
    }
  }

  lemma {:induction false} FieldsConvertOk(anchor: Value, fs: seq<Field>)
    requires forall f | f in fs :: IsObjectLike(f.val) ==> f.val < anchor
    requires forall f | f in fs :: IsObjectLike(f.val) ==> WellFormed(f.val) && MentionIds(f.val).Ok?
    ensures ConvertFields(anchor, fs).Ok?
    decreases anchor, 0, |fs|
  {
    if fs != [] {
      assert fs[0] in fs;
      if IsObjectLike(fs[0].val) {
        FindOkConvertOk(fs[0].val);
      }
      assert forall f | f in fs[1..] :: f in fs;
      FieldsConvertOk(anchor, fs[1..]);
    }
  }

  lemma {:induction false} ElemsConvertOk(anchor: Value, es: seq<Value>)
    requires forall e | e in es :: IsObjectLike(e) ==> e < anchor && WellFormed(e) && MentionIds(e).Ok?
    ensures ConvertElems(anchor, es).Ok?
    decreases anchor, 0, |es|
  {
    if es != [] {
      assert es[0] in es;
      if IsObjectLike(es[0]) {
        FindOkConvertOk(es[0]);
      }
      assert forall e | e in es[1..] :: e in es;
      ElemsConvertOk(anchor, es[1..]);
    }
  }
  lemma {:induction false} FieldsGrow(o: Value, n: nat, m: nat)
    requires o.Obj? && n <= m <= |o.fields| && FieldsMentionIds(o, m).Ok?
    ensures FieldsMentionIds(o, n).Ok? && FieldsMentionIds(o, n).value <= FieldsMentionIds(o, m).value
    decreases m
  {
    if n < m {
      FieldsGrow(o, n, m - 1);
    }
  }

  lemma {:induction false} ElemsGrow(a: Value, n: nat, m: nat)
    requires a.Arr? && n <= m <= |a.elems| && ElemsMentionIds(a, m).Ok?
    ensures ElemsMentionIds(a, n).Ok? && ElemsMentionIds(a, n).value <= ElemsMentionIds(a, m).value
    decreases m
  {
    if n < m {
      ElemsGrow(a, n, m - 1);
    }
  }

  /** Entry i of an object whose search succeeded: its own id and its value's ids are in the result. */
  lemma FieldFound(o: Value, i: nat)
    requires o.Obj? && i < |o.fields| && MentionIds(o).Ok?
    ensures EntryId(o.fields, o.fields[i]).Ok? && EntryId(o.fields, o.fields[i]).value <= MentionIds(o).value
    ensures MentionIds(o.fields[i].val).Ok? && MentionIds(o.fields[i].val).value <= MentionIds(o).value
  {
    FieldsGrow(o, i + 1, |o.fields|);
  }

  /** Element i of an array whose search succeeded: its ids are in the result. */
  lemma ElemFound(a: Value, i: nat)
    requires a.Arr? && i < |a.elems| && MentionIds(a).Ok?
    ensures MentionIds(a.elems[i]).Ok? && MentionIds(a.elems[i]).value <= MentionIds(a).value
  {
    ElemsGrow(a, i + 1, |a.elems|);
  }

  /** Conversely, the id of every reachable mention node is collected: nothing is missed at any depth. */
  lemma {:induction false} MentionNodesFound(v: Value, n: Value, id: Value)
    requires MentionIds(v).Ok? && IsMentionNodeWithId(v, n, id)
    ensures id in MentionIds(v).value
    decreases v
  {
    match v
    case Obj(fs) =>
      if v == n {
        var f :| f in fs && IsMentionEntry(f);
        var i :| 0 <= i < |fs| && fs[i] == f;
        FieldFound(v, i);
        assert EntryId(fs, f) == Ok({id});
      } else {
        var f :| f in fs && Reachable(f.val, n);
        var i :| 0 <= i < |fs| && fs[i] == f;
        FieldFound(v, i);
        assert IsMentionNodeWithId(f.val, n, id);
        MentionNodesFound(f.val, n, id);
      }
    case Arr(es) =>
      var e :| e in es && Reachable(e, n);
      var i :| 0 <= i < |es| && es[i] == e;
      ElemFound(v, i);
      assert IsMentionNodeWithId(e, n, id);
      MentionNodesFound(e, n, id);
  }
  /** A node with the entry `type: "mention"` but a nullish attrs: reading `attrs.user_id` on it throws. */
  ghost predicate IsBrokenMention(n: Value) {
    n.Obj? && (exists f | f in n.fields :: IsMentionEntry(f)) && IsNullish(Get(n.fields, "attrs"))
  }

  /** findAllValuesByKey throws exactly when some reachable mention node has no attrs. */
  lemma SearchThrowsIff(v: Value)
    ensures MentionIds(v).Err? <==> exists n :: Reachable(v, n) && IsBrokenMention(n)
  {
    if MentionIds(v).Err? {
      ThrowComesFromBrokenNode(v);
    } else {
      forall n | Reachable(v, n) ensures !IsBrokenMention(n) {
        NoBrokenNodeFound(v, n);
      }
    }
  }

  /** A throw comes from a reachable mention node without attrs. */
  lemma {:induction false} ThrowComesFromBrokenNode(v: Value)
    requires MentionIds(v).Err?
    ensures exists n :: Reachable(v, n) && IsBrokenMention(n)
    decreases v, Width(v)
  {
    match v
    case Obj(fs) => FieldsThrowFrom(v, |fs|);
    case Arr(es) => ElemsThrowFrom(v, |es|);
  }

  lemma {:induction false} FieldsThrowFrom(o: Value, n: nat)
    requires o.Obj? && n <= |o.fields| && FieldsMentionIds(o, n).Err?
    ensures exists m :: Reachable(o, m) && IsBrokenMention(m)
    decreases o, n
  {
    var f := o.fields[n - 1];
    if FieldsMentionIds(o, n - 1).Err? {
      FieldsThrowFrom(o, n - 1);
    } else if EntryId(o.fields, f).Err? {
      assert f in o.fields;
      assert Reachable(o, o) && IsBrokenMention(o);
    } else {
      ThrowComesFromBrokenNode(f.val);
      var m :| Reachable(f.val, m) && IsBrokenMention(m);
      assert f in o.fields;
      assert Reachable(o, m);
    }
  }

  lemma {:induction false} ElemsThrowFrom(a: Value, n: nat)
    requires a.Arr? && n <= |a.elems| && ElemsMentionIds(a, n).Err?
    ensures exists m :: Reachable(a, m) && IsBrokenMention(m)
    decreases a, n
  {
    if ElemsMentionIds(a, n - 1).Err? {
      ElemsThrowFrom(a, n - 1);
    } else {
      var e := a.elems[n - 1];
      ThrowComesFromBrokenNode(e);
      var m :| Reachable(e, m) && IsBrokenMention(m);
      assert e in a.elems;
      assert Reachable(a, m);
    }
  }

  /** A search that succeeded met no mention node without attrs. */
  lemma {:induction false} NoBrokenNodeFound(v: Value, n: Value)
    requires MentionIds(v).Ok? && Reachable(v, n)
    ensures !IsBrokenMention(n)
    decreases v
  {
    if v == n {
      if v.Obj? && exists f | f in v.fields :: IsMentionEntry(f) {
        var f :| f in v.fields && IsMentionEntry(f);
        var i :| 0 <= i < |v.fields| && v.fields[i] == f;
        FieldFound(v, i);
      }
    } else {
      match v
      case Obj(fs) =>
        var f :| f in fs && Reachable(f.val, n);
        var i :| 0 <= i < |fs| && fs[i] == f;
        FieldFound(v, i);
        NoBrokenNodeFound(f.val, n);
      case Arr(es) =>
        var e :| e in es && Reachable(e, n);
        var i :| 0 <= i < |es| && es[i] == e;
        ElemFound(v, i);
        NoBrokenNodeFound(e, n);
    }
  }
}
