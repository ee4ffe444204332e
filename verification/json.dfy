/**
 JSON-like configuration values and the recursive merge the build pipeline
 uses to combine per-path settings (`merge.recursive`): right-biased below
 the top-level keys, with the library's own top-level step on them.
 */
module Json {
  import opened Wrappers

  datatype Json =
    | JNull
    | JBool(b: bool)
    | JNum(n: int)
    | JStr(s: string)
    | JArr(items: seq<Json>)
    | JObj(fields: map<string, Json>)

  /** A plain object: the shape of a settings or metadata record. */
  type Object = map<string, Json>

  /** JavaScript truthiness: `null`, `false`, `0` and `""` are falsy, everything else is truthy. */
  predicate Truthy(j: Json)
  {
    match j
    case JNull => false
    case JBool(b) => b
    case JNum(n) => n != 0
    case JStr(s) => s != ""
    case JArr(_) => true
    case JObj(_) => true
  }

  /**
   Recursive merge of `ext` into `base` below the top level (the library's
   `_recursiveMerge` on two nested values): when both are objects the keys
   are merged one by one, otherwise `ext` replaces `base` (later wins).
   */
  function Merge(base: Json, ext: Json): Json
    decreases ext
  {
    if base.JObj? && ext.JObj? then
      JObj(map k | k in base.fields.Keys + ext.fields.Keys ::
             if k in ext.fields then
               (if k in base.fields then Merge(base.fields[k], ext.fields[k]) else ext.fields[k])
             else base.fields[k])
    else ext
  }

  /** The decimal digits of `i`, as JavaScript writes an array or string index. */
  function IndexKey(i: nat): string
    decreases i
  {
    if i < 10 then ["0123456789"[i]] else IndexKey(i / 10) + ["0123456789"[i % 10]]
  }

  /** The entries `for...in` visits on an array: each index with its element. */
  function SpreadSeq(xs: seq<Json>): (m: Object)
    ensures forall i :: 0 <= i < |xs| ==> IndexKey(i) in m
    decreases |xs|
  {
    if xs == [] then map[]
    else SpreadSeq(xs[..|xs| - 1])[IndexKey(|xs| - 1) := xs[|xs| - 1]]
  }

  /** A string's characters, each as a one-character string. */
  function Letters(s: string): (r: seq<Json>)
    ensures |r| == |s|
    ensures forall i :: 0 <= i < |s| ==> r[i] == JStr([s[i]])
    decreases |s|
  {
    if s == [] then [] else Letters(s[..|s| - 1]) + [JStr([s[|s| - 1]])]
  }

  /**
   The entries `for...in` visits on a value: an object's fields, the indices
   of an array or a string with their elements or one-character strings,
   and none for `null`, booleans and numbers.
   */
  function Spread(j: Json): (m: Object)
    ensures j.JObj? ==> m == j.fields
    ensures j.JNull? || j.JBool? || j.JNum? ==> m == map[]
  {
    match j
    case JObj(f) => f
    case JArr(xs) => SpreadSeq(xs)
    case JStr(s) => SpreadSeq(Letters(s))
    case _ => map[]
  }

  /** A value `for...in` visits no key of: `null`, a boolean or a number. */
  predicate Scalar(j: Json)
  {
    j.JNull? || j.JBool? || j.JNum?
  }

  /**
   The library's top-level step on one key of a rule's settings
   (`result[key] = _recursiveMerge(result[key], value)`): a value that is not
   an object is replaced by the later one; an object takes in, one by one,
   the entries `for...in` visits on the later value, so a later `null`,
   boolean or number leaves it as it was.
   */
  function MergeInto(base: Json, ext: Json): (r: Json)
    ensures !base.JObj? ==> r == ext
    ensures base.JObj? && ext.JObj? ==> r == Merge(base, ext)
    ensures base.JObj? && Scalar(ext) ==> r == base
    ensures base.JObj? ==> r.JObj? && base.fields.Keys <= r.fields.Keys
  {
    if base.JObj? then
      var r := Merge(base, JObj(Spread(ext)));
      assert Scalar(ext) ==> r.fields == base.fields;
      r
    else ext
  }

  /**
   Merge of a rule's settings `b` into the options `a`, key by key: a key of
   one side only keeps its value, and a key of both goes through the
   top-level step.
   */
  function MergeObjects(a: Object, b: Object): (r: Object)
    ensures r.Keys == a.Keys + b.Keys
    ensures forall k :: k in b && k !in a ==> r[k] == b[k]
    ensures forall k :: k in a && k !in b ==> r[k] == a[k]
    ensures forall k :: k in a && k in b && !a[k].JObj? ==> r[k] == b[k]
    ensures forall k :: k in a && k in b && a[k].JObj? && b[k].JObj? ==> r[k] == Merge(a[k], b[k])
    ensures forall k :: k in a && k in b && a[k].JObj? && Scalar(b[k]) ==> r[k] == a[k]
  {
    map k | k in a.Keys + b.Keys :: if k in b then (if k in a then MergeInto(a[k], b[k]) else b[k]) else a[k]
  }

  /**
   On a key where the settings hold no object (or a value that is not an
   object in the options), the top-level step is the nested merge's.
   */
  lemma MergeObjectsAt(a: Object, b: Object, q: seq<string>)
    requires q != [] && (q[0] in a && q[0] in b && a[q[0]].JObj? ==> b[q[0]].JObj?)
    ensures At(JObj(MergeObjects(a, b)), q) == At(Merge(JObj(a), JObj(b)), q)
  {
  }

  /** The value reached by following the key path `p` through nested objects. */
  function At(j: Json, p: seq<string>): Option<Json>
  {
    if p == [] then Some(j)
    else if j.JObj? && p[0] in j.fields then At(j.fields[p[0]], p[1..])
    else None
  }

  /** The key path `p` leads nowhere in `j`: some key on it is missing from an object. */
  predicate Untouched(j: Json, p: seq<string>)
  {
    p != [] && j.JObj? && (p[0] !in j.fields || Untouched(j.fields[p[0]], p[1..]))
  }

  lemma {:induction false} UntouchedIsAbsent(j: Json, p: seq<string>)
    requires Untouched(j, p)
    ensures At(j, p) == None
    decreases p
  {
    if p[0] in j.fields {
      UntouchedIsAbsent(j.fields[p[0]], p[1..]);
    }
  }

  /** Later wins: a non-object leaf of `ext` is exactly what the merge holds at that path. */
  lemma {:induction false} MergeLaterLeafWins(base: Json, ext: Json, p: seq<string>, v: Json)
    requires At(ext, p) == Some(v) && !v.JObj?
    ensures At(Merge(base, ext), p) == Some(v)
    decreases p
  {
    if p != [] {
      var k := p[0];
      if base.JObj? && k in base.fields {
        MergeLaterLeafWins(base.fields[k], ext.fields[k], p[1..], v);
      }
    }
  }

  /** What the later value does not mention, the merge takes from the earlier one. */
  lemma {:induction false} MergeKeepsUntouched(base: Json, ext: Json, p: seq<string>)
    requires Untouched(ext, p)
    ensures At(Merge(base, ext), p) == At(base, p)
    decreases p
  {
    var k := p[0];
    if !base.JObj? {
      UntouchedIsAbsent(ext, p);
    } else if k in ext.fields {
      if k in base.fields {
        MergeKeepsUntouched(base.fields[k], ext.fields[k], p[1..]);
      } else {
        UntouchedIsAbsent(ext.fields[k], p[1..]);
      }
    }
  }

  /** Merging objects whose keys do not overlap does not depend on their order. */
  lemma MergeObjectsDisjointCommute(a: Object, b1: Object, b2: Object)
    requires b1.Keys !! b2.Keys
    ensures MergeObjects(MergeObjects(a, b1), b2) == MergeObjects(MergeObjects(a, b2), b1)
  {
  }

  /** The empty object is a neutral element on both sides of an object merge. */
  lemma MergeObjectsEmpty(a: Object)
    ensures MergeObjects(map[], a) == a
    ensures MergeObjects(a, map[]) == a
  {
  }
}
