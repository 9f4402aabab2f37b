/**
 * Ordered documents: a field list whose insertion order is kept, as the driver's
 * Document (a linked hash map from field name to value) keeps it.
 */
module Documents {
  import opened Wrappers

  /** The field values the modelled code stores; numbers are taken as integers. */
  datatype Value =
    | Null
    | Bool(b: bool)
    | Num(n: int)
    | Str(s: string)
    | Doc(fields: seq<Field>)

  datatype Field = Field(key: string, value: Value)

  type Document = seq<Field>

  function Keys(d: Document): (ks: seq<string>)
    ensures |ks| == |d|
    ensures forall i :: 0 <= i < |d| ==> ks[i] == d[i].key
  {
    if d == [] then [] else [d[0].key] + Keys(d[1..])
  }

  /** No field name occurs twice, as in a map. */
  predicate UniqueKeys(d: Document) {
    forall i, j :: 0 <= i < j < |d| ==> d[i].key != d[j].key
  }

  /** The value of the first field named `k`, or None when there is none. */
  function Get(d: Document, k: string): (r: Option<Value>)
    ensures r.Some? <==> k in Keys(d)
    ensures r.Some? ==> exists i :: 0 <= i < |d| && d[i] == Field(k, r.value)
  {
    if d == [] then None
    else if d[0].key == k then Some(d[0].value)
    else Get(d[1..], k)
  }

  /**
   * Document.put: a field already present keeps its place and takes the new value;
   * a new field goes to the end.
   */
  function Put(d: Document, k: string, v: Value): (r: Document)
    ensures k in Keys(d) ==> Keys(r) == Keys(d)
    ensures k !in Keys(d) ==> r == d + [Field(k, v)]
    ensures forall i :: 0 <= i < |d| && d[i].key != k ==> r[i] == d[i]
  {
    if d == [] then [Field(k, v)]
    else if d[0].key == k then [Field(k, v)] + d[1..]
    else [d[0]] + Put(d[1..], k, v)
  }

  lemma KeysConcat(d: Document, e: Document)
    ensures Keys(d + e) == Keys(d) + Keys(e)
  {
    var ks := Keys(d + e);
    assert forall i :: 0 <= i < |ks| ==> ks[i] == (Keys(d) + Keys(e))[i];
  }

  lemma {:induction false} PutThenGet(d: Document, k: string, v: Value)
    ensures Get(Put(d, k, v), k) == Some(v)
  {
    if d != [] && d[0].key != k {
      PutThenGet(d[1..], k, v);
    }
  }

  /** put keeps a document a map: no field name comes to occur twice. */
  lemma PutKeepsKeysUnique(d: Document, k: string, v: Value)
    requires UniqueKeys(d)
    ensures UniqueKeys(Put(d, k, v))
  {
    var r := Put(d, k, v);
    if k in Keys(d) {
      assert forall i :: 0 <= i < |r| ==> r[i].key == Keys(r)[i] == Keys(d)[i] == d[i].key;
    } else {
      assert forall i :: 0 <= i < |d| ==> d[i].key == Keys(d)[i] != k;
    }
  }

  /**
   * In a document with unique keys the first field named `k` is the only one, so
   * Get reads a field's value by its name as a map lookup does.
   */
  lemma {:induction false} GetOfUniqueKeys(d: Document, i: nat)
    requires UniqueKeys(d) && i < |d|
    ensures Get(d, d[i].key) == Some(d[i].value)
    decreases i
  {
    if i > 0 {
      assert d[1..][i - 1] == d[i];
      GetOfUniqueKeys(d[1..], i - 1);
    }
  }
}
