/**
 * The find-and-update command builder: options set fluently on one object, then
 * rendered as an ordered command document.
 */
module FindAndModify {
  import opened Wrappers
  import opened Documents

  /**
   * One conditional put of the command: `key` is put with `value` when there is
   * one, and skipped otherwise.
   */
  datatype Entry = Entry(key: string, value: Option<Value>)

  /** putIfNotNull: a document option becomes a conditional document field. */
  function IfNotNull(d: Option<Document>): (v: Option<Value>)
    ensures v.Some? <==> d.Some?
    ensures v.Some? ==> v.value == Doc(d.value)
  {
    if d.Some? then Some(Doc(d.value)) else None
  }

  /** putIfTrue: a flag becomes a conditional `true` field. */
  function IfTrue(condition: bool): (v: Option<Value>)
    ensures v.Some? <==> condition
    ensures v.Some? ==> v.value == Bool(true)
  {
    if condition then Some(Bool(true)) else None
  }

  /** A document option as a field value: a missing document is written as null. */
  function AsValue(d: Option<Document>): Value {
    if d.Some? then Doc(d.value) else Null
  }

  /** Performs the conditional puts in order. */
  function PutPresent(d: Document, es: seq<Entry>): Document
    decreases |es|
  {
    if es == [] then d
    else
      var next := if es[0].value.Some? then Put(d, es[0].key, es[0].value.value) else d;
      PutPresent(next, es[1..])
  }

  /** The fields the conditional puts contribute, in order, absent ones skipped. */
  function Present(es: seq<Entry>): Document
    decreases |es|
  {
    if es == [] then []
    else (if es[0].value.Some? then [Field(es[0].key, es[0].value.value)] else []) + Present(es[1..])
  }

  /** The keys of the entries whose value is present, in order. */
  function PresentKeys(es: seq<Entry>): (ks: seq<string>)
    decreases |es|
  {
    if es == [] then []
    else (if es[0].value.Some? then [es[0].key] else []) + PresentKeys(es[1..])
  }

  predicate DistinctKeys(es: seq<Entry>) {
    forall i, j :: 0 <= i < j < |es| ==> es[i].key != es[j].key
  }

  /** Conditional puts of fresh, distinct keys append the present fields in order. */
  lemma {:induction false} PutPresentAppends(d: Document, es: seq<Entry>)
    requires DistinctKeys(es)
    requires forall i :: 0 <= i < |es| ==> es[i].key !in Keys(d)
    ensures PutPresent(d, es) == d + Present(es)
    decreases |es|
  {
    if es != [] {
      var e := es[0];
      var next := if e.value.Some? then Put(d, e.key, e.value.value) else d;
      var added := if e.value.Some? then [Field(e.key, e.value.value)] else [];
      assert next == d + added;
      KeysConcat(d, added);
      assert forall i :: 0 <= i < |es[1..]| ==> es[1..][i].key !in Keys(next) by {
        forall i | 0 <= i < |es[1..]|
          ensures es[1..][i].key !in Keys(next)
        {
          assert es[1..][i] == es[i + 1];
        }
      }
      PutPresentAppends(next, es[1..]);
      assert d + added + Present(es[1..]) == d + (added + Present(es[1..]));
    }
  }

  lemma {:induction false} PresentKeysAreKeys(es: seq<Entry>)
    ensures Keys(Present(es)) == PresentKeys(es)
    decreases |es|
  {
    if es != [] {
      var added := if es[0].value.Some? then [Field(es[0].key, es[0].value.value)] else [];
      KeysConcat(added, Present(es[1..]));
      PresentKeysAreKeys(es[1..]);
    }
  }

  /** A key is among the present keys exactly when some entry with that key has a value. */
  lemma {:induction false} InPresentKeys(es: seq<Entry>, k: string)
    ensures k in PresentKeys(es) <==> exists i :: 0 <= i < |es| && es[i].key == k && es[i].value.Some?
    decreases |es|
  {
    if es != [] {
      InPresentKeys(es[1..], k);
      if exists i :: 0 <= i < |es[1..]| && es[1..][i].key == k && es[1..][i].value.Some? {
        var i :| 0 <= i < |es[1..]| && es[1..][i].key == k && es[1..][i].value.Some?;
        assert es[i + 1] == es[1..][i];
      }
      if exists i :: 0 <= i < |es| && es[i].key == k && es[i].value.Some? {
        var i :| 0 <= i < |es| && es[i].key == k && es[i].value.Some?;
        if i > 0 {
          assert es[1..][i - 1] == es[i];
        }
      }
    }
  }

  /** With distinct keys, an entry's key is present exactly when that entry has a value. */
  lemma PresentAt(es: seq<Entry>, i: nat)
    requires DistinctKeys(es) && i < |es|
    ensures es[i].key in PresentKeys(es) <==> es[i].value.Some?
  {
    InPresentKeys(es, es[i].key);
  }

  /** The optional part of the command: query, fields, sort, new, upsert. */
  function OptionalEntries(filter: Option<Document>, selector: Option<Document>, sortCriteria: Option<Document>,
                           returnNew: bool, upsert: bool): seq<Entry> {
    [Entry("query", IfNotNull(filter)), Entry("fields", IfNotNull(selector)), Entry("sort", IfNotNull(sortCriteria)),
     Entry("new", IfTrue(returnNew)), Entry("upsert", IfTrue(upsert))]
  }

  /** The command's fixed first field, naming the collection. */
  function CommandHead(collectionName: string): Document {
    [Field("findandmodify", Str(collectionName))]
  }

  /** The command: the head, the conditional puts, and the update put last. */
  function CommandOf(collectionName: string, es: seq<Entry>, update: Value): Document {
    Put(PutPresent(CommandHead(collectionName), es), "update", update)
  }

  /** toDocument: `findandmodify` with the collection name, the optional puts, then `update`. */
  function FindAndUpdateCommand(collectionName: string, filter: Option<Document>, selector: Option<Document>,
                                sortCriteria: Option<Document>, returnNew: bool, upsert: bool,
                                updateOperations: Option<Document>): Document {
    CommandOf(collectionName, OptionalEntries(filter, selector, sortCriteria, returnNew, upsert), AsValue(updateOperations))
  }

  /** Distinct optional keys other than the head's and `update` land in order between the two. */
  lemma {:induction false} CommandOfLayout(collectionName: string, es: seq<Entry>, update: Value)
    requires DistinctKeys(es)
    requires forall i :: 0 <= i < |es| ==> es[i].key != "findandmodify" && es[i].key != "update"
    ensures CommandOf(collectionName, es, update) == CommandHead(collectionName) + Present(es) + [Field("update", update)]
    ensures Keys(CommandOf(collectionName, es, update)) == ["findandmodify"] + PresentKeys(es) + ["update"]
  {
    var c0 := CommandHead(collectionName);
    assert Keys(c0) == ["findandmodify"];
    PutPresentAppends(c0, es);
    var c5 := c0 + Present(es);
    PresentKeysAreKeys(es);
    KeysConcat(c0, Present(es));
    InPresentKeys(es, "update");
    KeysConcat(c5, [Field("update", update)]);
  }

  /** Each optional key is in the command exactly when its entry has a value. */
  lemma CommandOfHasEntry(collectionName: string, es: seq<Entry>, update: Value, i: nat)
    requires DistinctKeys(es) && i < |es|
    requires forall j :: 0 <= j < |es| ==> es[j].key != "findandmodify" && es[j].key != "update"
    ensures es[i].key in Keys(CommandOf(collectionName, es, update)) <==> es[i].value.Some?
  {
    CommandOfLayout(collectionName, es, update);
    PresentAt(es, i);
  }

  /**
   * The command is `findandmodify` first, the present optional fields in the
   * order query, fields, sort, new, upsert, and `update` last, always.
   */
  lemma CommandLayout(collectionName: string, filter: Option<Document>, selector: Option<Document>,
                      sortCriteria: Option<Document>, returnNew: bool, upsert: bool,
                      updateOperations: Option<Document>)
    ensures FindAndUpdateCommand(collectionName, filter, selector, sortCriteria, returnNew, upsert, updateOperations)
         == CommandHead(collectionName)
          + Present(OptionalEntries(filter, selector, sortCriteria, returnNew, upsert))
          + [Field("update", AsValue(updateOperations))]
    ensures Keys(FindAndUpdateCommand(collectionName, filter, selector, sortCriteria, returnNew, upsert, updateOperations))
         == ["findandmodify"] + PresentKeys(OptionalEntries(filter, selector, sortCriteria, returnNew, upsert)) + ["update"]
  {
    CommandOfLayout(collectionName, OptionalEntries(filter, selector, sortCriteria, returnNew, upsert), AsValue(updateOperations));
  }

  /** Each optional field is present exactly when its option is set. */
  lemma {:induction false} CommandFieldPresence(collectionName: string, filter: Option<Document>, selector: Option<Document>,
                             sortCriteria: Option<Document>, returnNew: bool, upsert: bool,
                             updateOperations: Option<Document>)
    ensures var c := FindAndUpdateCommand(collectionName, filter, selector, sortCriteria, returnNew, upsert, updateOperations);
      && ("query" in Keys(c) <==> filter.Some?)
      && ("fields" in Keys(c) <==> selector.Some?)
      && ("sort" in Keys(c) <==> sortCriteria.Some?)
      && ("new" in Keys(c) <==> returnNew)
      && ("upsert" in Keys(c) <==> upsert)
  {
    var es := OptionalEntries(filter, selector, sortCriteria, returnNew, upsert);
    var u := AsValue(updateOperations);
    CommandOfHasEntry(collectionName, es, u, 0);
    CommandOfHasEntry(collectionName, es, u, 1);
    CommandOfHasEntry(collectionName, es, u, 2);
    CommandOfHasEntry(collectionName, es, u, 3);
    CommandOfHasEntry(collectionName, es, u, 4);
  }

  /**
   * The builder: the options of the shared find-and-modify base (filter,
   * selector, sort criteria, return-new and upsert flags) and the update document.
   */
  class FindAndUpdate {
    const collectionName: string
    var filter: Option<Document>
    var selector: Option<Document>
    var sortCriteria: Option<Document>
    var returnNew: bool
    var upsert: bool
    var updateOperations: Option<Document>

    constructor (collectionName: string)
      ensures this.collectionName == collectionName
      ensures filter == None && selector == None && sortCriteria == None
      ensures !returnNew && !upsert && updateOperations == None
    {
      this.collectionName := collectionName;
      filter, selector, sortCriteria := None, None, None;
      returnNew, upsert := false, false;
      updateOperations := None;
    }

    /** updateWith: replaces any earlier update document. */
    method UpdateWith(anUpdateOperations: Option<Document>) returns (self: FindAndUpdate)
      modifies this`updateOperations
      ensures self == this && updateOperations == anUpdateOperations
    {
      updateOperations := anUpdateOperations;
      self := this;
    }

    method Where(aFilter: Option<Document>) returns (self: FindAndUpdate)
      modifies this`filter
      ensures self == this && filter == aFilter
    {
      filter := aFilter;
      self := this;
    }

    method Select(aSelector: Option<Document>) returns (self: FindAndUpdate)
      modifies this`selector
      ensures self == this && selector == aSelector
    {
      selector := aSelector;
      self := this;
    }

    method SortBy(aSortCriteria: Option<Document>) returns (self: FindAndUpdate)
      modifies this`sortCriteria
      ensures self == this && sortCriteria == aSortCriteria
    {
      sortCriteria := aSortCriteria;
      self := this;
    }

    method ReturnNew(aReturnNew: bool) returns (self: FindAndUpdate)
      modifies this`returnNew
      ensures self == this && returnNew == aReturnNew
    {
      returnNew := aReturnNew;
      self := this;
    }

    method Upsert(anUpsert: bool) returns (self: FindAndUpdate)
      modifies this`upsert
      ensures self == this && upsert == anUpsert
    {
      upsert := anUpsert;
      self := this;
    }

    /** toDocument: reads the builder's fields and changes none of them. */
    function ToDocument(): (d: Document)
      reads this
      ensures d == CommandHead(collectionName)
                 + Present(OptionalEntries(filter, selector, sortCriteria, returnNew, upsert))
                 + [Field("update", AsValue(updateOperations))]
    {
      CommandLayout(collectionName, filter, selector, sortCriteria, returnNew, upsert, updateOperations);
      FindAndUpdateCommand(collectionName, filter, selector, sortCriteria, returnNew, upsert, updateOperations)
    }
  }
}
